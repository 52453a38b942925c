# Unity Speech-to-Text in Dafny

This project models the core of the Unity Speech-to-Text sample. That sample streams microphone audio to several
speech-to-text services (Google streaming, IBM Watson streaming, Windows dictation, and the Google and Wit.ai
response parsers) and compares their transcripts side by side. The model covers:

- **Shared pieces.** The speech-to-text result record, the string utilities (Levenshtein distance and the
  special-formatting filter), the SoX option and encoding names, and the SoX conversion job's argument line.
- **Recording.** The audio recording manager's chunk extraction and timeout watcher.
- **Services.** The base service's listener lists and recording flag, and the streaming service's chunk
  producer. Each concrete service's sending and waiting loop becomes a state machine driven by frames and
  callbacks.
- **Widgets.** The service widget, which shows the results of one service and measures their accuracy against a
  phrase, and the comparison widget, which starts and stops every service widget and waits for each one's last
  response.

Coroutines become immutable session records with a `Step` over events (frames, SDK callbacks, process output) and
a `Run` over event sequences. The three services that wait for a final result check that wait one frame at a
time in their own state machines. All of them take the loop's condition (`StillWaiting`) and the forcing of a last
interim result final (`Finalise`, `ForcedNotices`) from `SessionEnd`. `SessionEnd.WaitForFinal` states the same
loop over a whole sequence of frames, and the lemmas about it say what the wait delivers and when it ends. Session
invariants are ghost predicates, preserved per step and then, by induction, over every run.

Inputs the program reads from Unity or the operating system are parameters of the model:

- `Time.deltaTime` and `Time.time`;
- whether the microphone is still recording;
- whether a file exists;
- whether the helper process has exited;
- the SDK's callbacks.

Files:

- **Foundations:**
  - `wrappers.dfy` (Option);
  - `chars.dfy` (the .NET char and string helpers the code calls);
  - `decimal.dfy` (integer to text);
  - `json.dfy` (the JSON object accessors);
  - `error_text.dfy` (the "(code) message" error format).
- **Results and utilities:**
  - `results.dfy`;
  - `string_utilities.dfy`;
  - `globals.dfy`;
  - `sox_job.dfy`;
  - `recording.dfy`.
- **Response parsers:**
  - `google_parser.dfy`;
  - `witai_parser.dfy`;
  - `watson_component.dfy`.
- **Services:**
  - `service.dfy`;
  - `streaming.dfy`;
  - `finalisation.dfy`;
  - `google_streaming.dfy`;
  - `watson_streaming.dfy`;
  - `windows_service.dfy`.
- **Widgets:**
  - `service_widget.dfy`;
  - `comparison_widget.dfy`.

## Model

| member | source | states |
|---|---|---|
| Chars.Lower | Assets/SpeechToText/Scripts/Utilities/StringUtilities.cs:38-42 | Lowering keeps the length and maps each character through the upper-to-lower case map |
| Chars.LowerIdempotent | Assets/SpeechToText/Scripts/Utilities/StringUtilities.cs:38-42 | Lowering an already lowered string changes nothing |
| Chars.Trim | Assets/SpeechToText/Scripts/SpeechToTextServices/GoogleStreamingSpeechToTextService.cs:198 | The trimmed line is the slice of the input between its leading and trailing white space, and neither end of it is white space |
| Chars.TrimSkipsPadding | Assets/SpeechToText/Scripts/SpeechToTextServices/GoogleStreamingSpeechToTextService.cs:198 | Any white-space padding around a text that neither starts nor ends with white space is removed exactly |
| Decimal.ParseIntToString | Assets/SpeechToText/Scripts/SpeechToTextServices/GoogleSpeechToTextResponseJSONParser.cs:25 | The decimal text of an integer reads back as that integer |
| Decimal.IntToStringInjective | Assets/SpeechToText/Scripts/SpeechToTextServices/GoogleSpeechToTextResponseJSONParser.cs:25 | Different integers are written as different texts |
| JsonValues.GetField | Assets/SpeechToText/Scripts/SpeechToTextServices/GoogleSpeechToTextResponseJSONParser.cs:18 | A field lookup succeeds exactly when the object has the key, and what it returns is the value stored under that key |
| JsonValues.ReadString | Assets/SpeechToText/Scripts/SpeechToTextServices/GoogleSpeechToTextResponseJSONParser.cs:53 | The typed getter reports whether the key is present and leaves the caller's default in place when it is not |
| JsonValues.GetFieldOfDistinctKeys | Assets/SpeechToText/Scripts/SpeechToTextServices/GoogleSpeechToTextResponseJSONParser.cs:18 | In an object whose keys are distinct, each key looks up its own value |
| ErrorText.FormatError | Assets/SpeechToText/Scripts/SpeechToTextServices/GoogleSpeechToTextResponseJSONParser.cs:21-29 | Without a code the error text is the bare message; with one it starts with '(' and ends with the message |
| ErrorText.FormatErrorRoundTrip | Assets/SpeechToText/Scripts/SpeechToTextServices/GoogleSpeechToTextResponseJSONParser.cs:21-29 | The code and the message can both be read back from the "(code) message" text |
| SpeechResults.NewResult | Assets/SpeechToText/Scripts/SpeechToTextServices/SpeechToTextResults/SpeechToTextResult.cs:11-30 | A default-constructed result is final and has no alternatives |
| SpeechResults.NewTextResult | Assets/SpeechToText/Scripts/SpeechToTextServices/SpeechToTextResults/SpeechToTextResult.cs:37-42 | The text constructor makes exactly one alternative holding the text, with the given finality |
| SpeechResults.NewTextResultRoundTrip | Assets/SpeechToText/Scripts/SpeechToTextServices/SpeechToTextResults/SpeechToTextResult.cs:37-42 | A single-text result is rebuilt exactly from its text and finality, and the constructor always builds one |
| SpeechResults.WithFinalIdempotent | Assets/SpeechToText/Scripts/SpeechToTextServices/SpeechToTextResults/SpeechToTextResult.cs:16-20 | Marking a result final twice equals marking it once, and a final result is unchanged by it |
| StringUtilities.LevenshteinDistance | Assets/SpeechToText/Scripts/Utilities/StringUtilities.cs:18-58 | The row-by-row table fill returns the edit distance of the two strings under unit-cost insertion, deletion and substitution; without case sensitivity it is the distance of the lowered strings |
| StringUtilities.DistanceByRows | Assets/SpeechToText/Scripts/Utilities/StringUtilities.cs:28-57 | Keeping only the previous row of the table still yields the last cell, the edit distance of the whole strings |
| StringUtilities.NextRow | Assets/SpeechToText/Scripts/Utilities/StringUtilities.cs:44-55 | One pass of the inner loop turns row i-1 of the table into row i |
| StringUtilities.RowCell | Assets/SpeechToText/Scripts/Utilities/StringUtilities.cs:25-36 | Cell q of row i is the edit distance between the first i characters of one string and the first q of the other |
| StringUtilities.DiagonalIsZero | Assets/SpeechToText/Scripts/Utilities/StringUtilities.cs:44-55 | The table's diagonal for a string against itself is all zeros |
| StringUtilities.LevenshteinIdentity | Assets/SpeechToText/Scripts/Utilities/StringUtilities.cs:18-58 | A string is at distance 0 from itself |
| StringUtilities.LevenshteinEmpty | Assets/SpeechToText/Scripts/Utilities/StringUtilities.cs:25-36 | The distance to the empty string is the length of the other string |
| StringUtilities.EditDistanceSymmetric | Assets/SpeechToText/Scripts/Utilities/StringUtilities.cs:44-55 | Swapping the two strings leaves every table cell unchanged (transposed) |
| StringUtilities.LevenshteinSymmetric | Assets/SpeechToText/Scripts/Utilities/StringUtilities.cs:18-58 | The distance does not depend on the order of its arguments |
| StringUtilities.EditDistanceUpperBound | Assets/SpeechToText/Scripts/Utilities/StringUtilities.cs:44-55 | A cell never exceeds the longer of its two prefix lengths |
| StringUtilities.EditDistanceLowerBound | Assets/SpeechToText/Scripts/Utilities/StringUtilities.cs:44-55 | A cell is at least the difference of its two prefix lengths |
| StringUtilities.LevenshteinBounds | Assets/SpeechToText/Scripts/Utilities/StringUtilities.cs:18-58 | The distance lies between the difference of the two lengths and the longer length |
| StringUtilities.LevenshteinCaseInsensitive | Assets/SpeechToText/Scripts/Utilities/StringUtilities.cs:18-42 | The default case-insensitive distance equals the case-sensitive distance of the lowered strings |
| StringUtilities.TrimSpecialFormatting | Assets/SpeechToText/Scripts/Utilities/StringUtilities.cs:73-168 | The output is a subsequence of the input. It holds no character to remove, no opening bracket, no word-removal character at a word start, no non-alphanumeric character when asked, and no doubled white space when asked. Empty input gives empty output |
| StringUtilities.KeepsPlainText | Assets/SpeechToText/Scripts/Utilities/StringUtilities.cs:73-168 | Text with nothing to strip comes out unchanged. That is text whose every character passes the character filters and opens no span or word to remove, and, when extra white space is to be removed, has no doubled white space and none at either end |
| StringUtilities.ScanKeepsInvariant | Assets/SpeechToText/Scripts/Utilities/StringUtilities.cs:103-162 | Over any run of the loop, the output so far stays a filtered subsequence of the characters already looked at |
| StringUtilities.TextToRemoveContributesNothing | Assets/SpeechToText/Scripts/Utilities/StringUtilities.cs:105-112 | Inside a bracketed span, every character up to and including the matching close character is dropped, and the span ends there |
| StringUtilities.SurroundedTextRemoved | Assets/SpeechToText/Scripts/Utilities/StringUtilities.cs:105-132 | A whole span from an opening character to its close character adds nothing to the output |
| StringUtilities.NoSurroundingWhiteSpaceScansAll | Assets/SpeechToText/Scripts/Utilities/StringUtilities.cs:79-103 | Input with no white space at either end is looked at from its first to its last character |
| StringUtilities.BracketOptions | Assets/SpeechToText/Scripts/SpeechToTextWidgets/SpeechToTextServiceWidget.cs:381-384 | The widget's filter drops words that start with '%' and spans opened by '[', with both boolean options at their defaults (on) |
| StringUtilities.LeadingSpaceSurvives | Assets/SpeechToText/Scripts/Utilities/StringUtilities.cs:83-158 | Counterexample: "[] a" filters to " a", so a leading space survives after a removed span |
| StringUtilities.TrailingSpaceSurvives | Assets/SpeechToText/Scripts/Utilities/StringUtilities.cs:83-158 | Counterexample: "a []" filters to "a ", so a trailing space survives before a removed span |
| StringUtilities.TrimSpecialFormattingCorrected | Assets/SpeechToText/Scripts/Utilities/StringUtilities.cs:70-168 | Everything the filter as written promises, plus no white space at either end of the output when extra white space is to be removed; with that option off it equals the filter as written |
| StringUtilities.CorrectedIsTrimmedAsWritten | Assets/SpeechToText/Scripts/Utilities/StringUtilities.cs:83-94 | The correction differs from the code only by trimming white space off the ends of what the loop produced |
| Globals.EndiannessNamesRoundTrip | Assets/SpeechToText/Scripts/Utilities/Globals.cs:218-223 | Exactly the three specified byte orders have names, and a name maps back to its byte order and only to it |
| Globals.EncodingNamesRoundTrip | Assets/SpeechToText/Scripts/Utilities/Globals.cs:252-264 | Exactly the ten specified encodings have names, and a name maps back to its encoding and only to it |
| Globals.EncodingNamesDistinct | Assets/SpeechToText/Scripts/Utilities/Globals.cs:252-264 | No two encodings share a name |
| GoogleParser.GetErrorFromResponseJSON | Assets/SpeechToText/Scripts/SpeechToTextServices/GoogleSpeechToTextResponseJSONParser.cs:16-33 | There is an error exactly when the response has an "error" field. When the error carries a code, the code and message can be read back from the text; otherwise the text is the message, "Unknown error" when it is absent |
| GoogleParser.ErrorResponseRoundTrip | Assets/SpeechToText/Scripts/SpeechToTextServices/GoogleSpeechToTextResponseJSONParser.cs:16-33 | An error response built from a code and message parses back to that code and message |
| GoogleParser.ErrorObjectMessage | Assets/SpeechToText/Scripts/SpeechToTextServices/GoogleSpeechToTextResponseJSONParser.cs:27-28 | The message read from an error object is its "message" field, or "Unknown error" without one |
| GoogleParser.GetTextResultFromResultJSON | Assets/SpeechToText/Scripts/SpeechToTextServices/GoogleSpeechToTextResponseJSONParser.cs:40-65 | The result is final and has text. Without alternatives it is the default result; otherwise alternative i holds the i-th transcript and confidence, defaulting to "" and 0 |
| GoogleParser.GetDefaultGoogleSpeechToTextResult | Assets/SpeechToText/Scripts/SpeechToTextServices/GoogleSpeechToTextResponseJSONParser.cs:71-80 | The default result has exactly one alternative, with empty text and confidence 0 |
| GoogleParser.ResultJsonRoundTrip | Assets/SpeechToText/Scripts/SpeechToTextServices/GoogleSpeechToTextResponseJSONParser.cs:40-65 | A result object built from transcripts and confidences parses back to exactly those alternatives, in order |
| GoogleParser.AlternativeJsonsRoundTrip | Assets/SpeechToText/Scripts/SpeechToTextServices/GoogleSpeechToTextResponseJSONParser.cs:48-58 | Alternative objects built from transcripts and confidences parse back, one for one and in order, to those transcripts and confidences |
| GoogleParser.EmptyResultJsonIsDefault | Assets/SpeechToText/Scripts/SpeechToTextServices/GoogleSpeechToTextResponseJSONParser.cs:60-63 | A result object with an empty alternatives list parses to the default result |
| WitAiParser.GetErrorFromResponseJSON | Assets/SpeechToText/Scripts/SpeechToTextServices/WitAiSpeechToTextResponseJSONParser.cs:16-31 | There is an error exactly when the response has an "error" field, with the optional code read back from the text |
| WitAiParser.GetTextResultFromResponseJSON | Assets/SpeechToText/Scripts/SpeechToTextServices/WitAiSpeechToTextResponseJSONParser.cs:38-46 | The result is always final and holds one text: the "_text" field, or "" without one |
| WitAiParser.TextResponseRoundTrip | Assets/SpeechToText/Scripts/SpeechToTextServices/WitAiSpeechToTextResponseJSONParser.cs:38-46 | A text response parses to that text as a final result and reports no error |
| WitAiParser.ErrorResponseRoundTrip | Assets/SpeechToText/Scripts/SpeechToTextServices/WitAiSpeechToTextResponseJSONParser.cs:16-31 | An error response parses to the "(code) message" text of its code and message |
| WitAiParser.CodeAloneIsNoError | Assets/SpeechToText/Scripts/SpeechToTextServices/WitAiSpeechToTextResponseJSONParser.cs:19-23 | A response with a code but no message is not treated as an error |
| WatsonComponent.FindCredentials | Assets/SpeechToText/Scripts/SpeechToTextServices/WatsonSpeechToTextComponent.cs:28 | The lookup finds nothing exactly when no entry has the service ID; otherwise it returns an entry of the list with that ID |
| WatsonComponent.ConfigureCredentials | Assets/SpeechToText/Scripts/SpeechToTextServices/WatsonSpeechToTextComponent.cs:26-37 | Afterwards the speech-to-text credentials exist. Existing credentials are left alone; otherwise one entry is appended and nothing else changes |
| WatsonComponent.ConfigureCredentialsIdempotent | Assets/SpeechToText/Scripts/SpeechToTextServices/WatsonSpeechToTextComponent.cs:26-37 | Configuring a second time, with any user name and password, changes nothing |
| WatsonComponent.CreateSpeechToTextResult | Assets/SpeechToText/Scripts/SpeechToTextServices/WatsonSpeechToTextComponent.cs:44-60 | The conversion keeps finality and the number and order of alternatives, copying each transcript and confidence |
| WatsonComponent.CreateSpeechToTextResultRoundTrip | Assets/SpeechToText/Scripts/SpeechToTextServices/WatsonSpeechToTextComponent.cs:44-60 | The conversion loses nothing: the Watson result can be rebuilt from it |
| SoXJob.NewJobFromParameters | Assets/SpeechToText/Scripts/Utilities/ThreadedJobs/SoXAudioConversionJob.cs:122-127 | The job's output format carries exactly the frequency, bits, channels, encoding and byte order it was given |
| SoXJob.NewJobWithDefaults | Assets/SpeechToText/Scripts/Utilities/ThreadedJobs/SoXAudioConversionJob.cs:60-127 | Omitted parameters default to 16 bits, one channel, and no encoding or byte-order option |
| SoXJob.Tokens | Assets/SpeechToText/Scripts/Utilities/ThreadedJobs/SoXAudioConversionJob.cs:166-180 | The argument line starts with the input path, then the rate, bits and channel options with their values, and ends with the output path |
| SoXJob.TokensOptionalParts | Assets/SpeechToText/Scripts/Utilities/ThreadedJobs/SoXAudioConversionJob.cs:170-179 | The byte-order option appears exactly when the byte order has a name, the encoding option exactly when the encoding has one, each with its name |
| SoXJob.ArgumentStringIsJoinedTokens | Assets/SpeechToText/Scripts/Utilities/ThreadedJobs/SoXAudioConversionJob.cs:166-180 | The argument string is those tokens joined by single spaces |
| SoXJob.ArgumentsReachSoX | Assets/SpeechToText/Scripts/Utilities/ThreadedJobs/SoXAudioConversionJob.cs:166-180 | When neither path contains a space, splitting the argument line on spaces gives back exactly the intended tokens |
| SoXJob.SplitJoin | Assets/SpeechToText/Scripts/Utilities/ThreadedJobs/SoXAudioConversionJob.cs:166-180 | Joining space-free tokens with spaces and splitting again is the identity |
| SoXJob.ConvertAudio | Assets/SpeechToText/Scripts/Utilities/ThreadedJobs/SoXAudioConversionJob.cs:159-196 | The previous error is always cleared. A missing SoX gives the not-found message and no process; otherwise the job runs with the argument string and fails exactly when the output file does not appear |
| SoXJob.ConvertAudioForgetsPreviousError | Assets/SpeechToText/Scripts/Utilities/ThreadedJobs/SoXAudioConversionJob.cs:161 | A conversion's outcome does not depend on the error left by an earlier run |
| AudioRecording.ChunkWindow | Assets/SpeechToText/Scripts/Utilities/AudioRecordingManager.cs:156-194 | There is no chunk exactly when the length is not positive or the offset is at or past the clip's end; any chunk lies inside the clip |
| AudioRecording.ClampedLength | Assets/SpeechToText/Scripts/Utilities/AudioRecordingManager.cs:176-181 | The clamped length never exceeds the requested one, never runs past the clip's end, and equals the request when that fits |
| AudioRecording.GetChunkOfRecordedAudio | Assets/SpeechToText/Scripts/Utilities/AudioRecordingManager.cs:156-194 | The same null conditions as the window. A chunk keeps the clip's channel count and frequency and holds the clip's samples from the floor of the start offset |
| AudioRecording.ChunkStartsAtOffset | Assets/SpeechToText/Scripts/Utilities/AudioRecordingManager.cs:171-187 | A chunk starts at the sample of the (clamped) offset |
| AudioRecording.ChunkCoversLength | Assets/SpeechToText/Scripts/Utilities/AudioRecordingManager.cs:184 | A chunk that fits is at least as long as requested, and less than one sample longer |
| AudioRecording.ChunkReachesEnd | Assets/SpeechToText/Scripts/Utilities/AudioRecordingManager.cs:176-184 | A chunk clamped at the clip's end reaches the end of the recording |
| AudioRecording.StartRecording | Assets/SpeechToText/Scripts/Utilities/AudioRecordingManager.cs:117-126 | Starting an idle device clears the forced-stop flag and starts one more timeout watcher; starting a recording device changes nothing |
| AudioRecording.StopRecording | Assets/SpeechToText/Scripts/Utilities/AudioRecordingManager.cs:131-147 | Stopping a recording device marks the stop as forced; stopping an idle one changes nothing |
| AudioRecording.Frame | Assets/SpeechToText/Scripts/Utilities/AudioRecordingManager.cs:87-100 | Once the device has stopped, every watcher ends, and they report a timeout exactly when the stop was not forced |
| AudioRecording.ExplicitStopNoTimeout | Assets/SpeechToText/Scripts/Utilities/AudioRecordingManager.cs:93-135 | A recording stopped by the caller reports no timeout |
| AudioRecording.DeviceStopOneTimeout | Assets/SpeechToText/Scripts/Utilities/AudioRecordingManager.cs:87-100 | A recording the device ends by itself reports exactly one timeout |
| AudioRecording.RestartWithinFrameReportsTwice | Assets/SpeechToText/Scripts/Utilities/AudioRecordingManager.cs:87-126 | A stop and restart within one frame leaves two watchers, and a device timeout is then reported twice |
| SpeechService.Register | Assets/SpeechToText/Scripts/SpeechToTextServices/SpeechToTextService.cs:38-41 | Registering appends the listener at the end |
| SpeechService.LastIndexOf | Assets/SpeechToText/Scripts/SpeechToTextServices/SpeechToTextService.cs:47-50 | The index found is the last occurrence of the listener, or -1 exactly when it is absent |
| SpeechService.Unregister | Assets/SpeechToText/Scripts/SpeechToTextServices/SpeechToTextService.cs:47-50 | Unregistering an absent listener changes nothing; otherwise exactly one occurrence, the last, is removed |
| SpeechService.RegisterThenUnregister | Assets/SpeechToText/Scripts/SpeechToTextServices/SpeechToTextService.cs:38-50 | Unregistering the listener just registered restores the list |
| SpeechService.StartRecording | Assets/SpeechToText/Scripts/SpeechToTextServices/SpeechToTextService.cs:124-133 | Start succeeds exactly when not recording, and then sets the flag and stops every running coroutine |
| SpeechService.StopRecording | Assets/SpeechToText/Scripts/SpeechToTextServices/SpeechToTextService.cs:139-147 | Stop succeeds exactly when recording, and then clears the flag |
| SpeechService.OnRecordingTimeout | Assets/SpeechToText/Scripts/SpeechToTextServices/SpeechToTextService.cs:111-118 | A timeout clears the recording flag and notifies the timeout listeners once |
| SpeechService.StartStopAlternate | Assets/SpeechToText/Scripts/SpeechToTextServices/SpeechToTextService.cs:124-147 | Exactly one of start and stop succeeds in any state, and each success enables the other |
| SpeechService.StopAfterTimeoutFails | Assets/SpeechToText/Scripts/SpeechToTextServices/SpeechToTextService.cs:111-147 | After a recording timeout, stop fails and start succeeds |
| Streaming.StartRecording | Assets/SpeechToText/Scripts/SpeechToTextServices/StreamingSpeechToTextService.cs:45-55 | A successful start resets the last result to an empty interim result and runs the recording and streaming coroutines |
| Streaming.StopRecording | Assets/SpeechToText/Scripts/SpeechToTextServices/StreamingSpeechToTextService.cs:61-69 | A successful stop also stops the recording device; a failed one touches nothing |
| Streaming.HeadAsWritten | Assets/SpeechToText/Scripts/SpeechToTextServices/StreamingSpeechToTextService.cs:78-91 | The loop as written never produces a chunk at its head |
| Streaming.HeadSpinsOnEmptyPass | Assets/SpeechToText/Scripts/SpeechToTextServices/StreamingSpeechToTextService.cs:78-91 | Counterexample: while recording, if the inner wait does not hold at its first check, the loop body never yields, whatever fuel it is given |
| Streaming.ProducerSpinsAfterDeviceTimeout | Assets/SpeechToText/Scripts/SpeechToTextServices/StreamingSpeechToTextService.cs:78-91 | Counterexample: once the microphone has stopped but the service flag is still set, the producer never yields |
| Streaming.Head | Assets/SpeechToText/Scripts/SpeechToTextServices/StreamingSpeechToTextService.cs:78-84 | The corrected loop head finishes exactly when recording has stopped, and otherwise waits for a chunk |
| Streaming.HeadAgreesWhenItYields | Assets/SpeechToText/Scripts/SpeechToTextServices/StreamingSpeechToTextService.cs:78-91 | Whenever the loop as written does yield, it agrees with the corrected loop head |
| Streaming.Resume | Assets/SpeechToText/Scripts/SpeechToTextServices/StreamingSpeechToTextService.cs:78-91 | Each resumption appends at most one chunk to what was produced and leaves a finished producer alone |
| Streaming.EndChunk | Assets/SpeechToText/Scripts/SpeechToTextServices/StreamingSpeechToTextService.cs:85-90 | A chunk is queued only when its length is positive, starting where the previous one ended |
| Streaming.RunKeepsChunksContiguous | Assets/SpeechToText/Scripts/SpeechToTextServices/StreamingSpeechToTextService.cs:74-92 | Over any run, the produced chunks only grow, and they tile time without gaps or overlaps from the start |
| Streaming.FinishedProducesNothing | Assets/SpeechToText/Scripts/SpeechToTextServices/StreamingSpeechToTextService.cs:78 | A producer that has left its loop produces nothing more |
| SessionEnd.Finalise | Assets/SpeechToText/Scripts/SpeechToTextServices/WatsonStreamingSpeechToTextService.cs:83-91 | Forcing finality keeps the alternatives. It delivers the result again only when it was interim |
| SessionEnd.WaitDeliversArrivals | Assets/SpeechToText/Scripts/SpeechToTextServices/WatsonStreamingSpeechToTextService.cs:75-91 | The wait ends only with a final result. What it delivers is every result that arrived, plus the last one forced final exactly when none of them was final |
| SessionEnd.WaitEndsByTimeout | Assets/SpeechToText/Scripts/SpeechToTextServices/WatsonStreamingSpeechToTextService.cs:77-81 | Once the frames add up to the timeout, the wait has ended |
| SessionEnd.FinalArrivalEndsWait | Assets/SpeechToText/Scripts/SpeechToTextServices/WatsonStreamingSpeechToTextService.cs:77 | A final result arriving in the first frame ends the wait there, and nothing is forced |
| WatsonStreaming.OnSpeechToTextResult | Assets/SpeechToText/Scripts/SpeechToTextServices/WatsonStreamingSpeechToTextService.cs:112-124 | An empty result list is ignored; otherwise the first result is converted, delivered and kept as the last result |
| WatsonStreaming.OnFrame | Assets/SpeechToText/Scripts/SpeechToTextServices/WatsonStreamingSpeechToTextService.cs:60-91 | Sending moves queued chunks to the SDK in order. An empty queue keeps the sender waiting. The SDK stops listening only once the last result is final |
| WatsonStreaming.ChunksSentInOrder | Assets/SpeechToText/Scripts/SpeechToTextServices/WatsonStreamingSpeechToTextService.cs:59-73 | Over any run, the chunks sent followed by those still queued are every chunk queued, in order |
| WatsonStreaming.ListeningUntilDone | Assets/SpeechToText/Scripts/SpeechToTextServices/WatsonStreamingSpeechToTextService.cs:57-93 | The SDK listens exactly until the session is done |
| WatsonStreaming.DoneDeliversOnlyCallbacks | Assets/SpeechToText/Scripts/SpeechToTextServices/WatsonStreamingSpeechToTextService.cs:83-93 | After the session is done, frames change nothing, so the forced result is delivered at most once |
| GoogleStreaming.ClassifyOutput | Assets/SpeechToText/Scripts/SpeechToTextServices/GoogleStreamingSpeechToTextService.cs:194-211 | A trimmed line equal to "ready to start" is the ready prompt. A line starting with "response: " queues the rest. Anything else is ignored |
| GoogleStreaming.ResponseLineRoundTrip | Assets/SpeechToText/Scripts/SpeechToTextServices/GoogleStreamingSpeechToTextService.cs:198-209 | A padded response line hands back exactly the JSON text after the prefix |
| GoogleStreaming.ProcessNextResponseJSON | Assets/SpeechToText/Scripts/SpeechToTextServices/GoogleStreamingSpeechToTextService.cs:266-297 | An error is reported exactly when the response has one. A text result follows exactly when the response has a first result, and only then does the last result change |
| GoogleStreaming.StreamingTextResult | Assets/SpeechToText/Scripts/SpeechToTextServices/GoogleStreamingSpeechToTextService.cs:284-288 | A streamed result keeps the parsed alternatives and is final exactly when "is_final" is true |
| GoogleStreaming.StreamingResponseRoundTrip | Assets/SpeechToText/Scripts/SpeechToTextServices/GoogleStreamingSpeechToTextService.cs:281-295 | A response built from alternatives and a finality flag is delivered and kept as exactly that result |
| GoogleStreaming.ErrorResponseKeepsLastResult | Assets/SpeechToText/Scripts/SpeechToTextServices/GoogleStreamingSpeechToTextService.cs:272-279 | An error response is reported and does not touch the last result |
| GoogleStreaming.ConversionJob | Assets/SpeechToText/Scripts/SpeechToTextServices/GoogleStreamingSpeechToTextService.cs:222-223 | Each chunk is converted to 16 kHz, 16-bit, mono, signed-integer, little-endian raw audio |
| GoogleStreaming.Begin | Assets/SpeechToText/Scripts/SpeechToTextServices/GoogleStreamingSpeechToTextService.cs:88-105 | Without a credentials file, the session reports the missing-credentials error and writes nothing; otherwise it waits for the ready prompt |
| GoogleStreaming.StepKeepsProtocol | Assets/SpeechToText/Scripts/SpeechToTextServices/GoogleStreamingSpeechToTextService.cs:124-237 | Every step keeps what was written to the process in protocol. Nothing is written before the ready prompt or without credentials. Then comes the preamble, one path per successful conversion, and "stop" once the wait for a final result begins. Chunks keep their queue order |
| GoogleStreaming.FinishConversionLogs | Assets/SpeechToText/Scripts/SpeechToTextServices/GoogleStreamingSpeechToTextService.cs:217-237 | A finished conversion, failed or not, takes its chunk in order and leaves the queue and phase alone. Only a successful one adds its path to what is written to the process |
| GoogleStreaming.RunKeepsProtocol | Assets/SpeechToText/Scripts/SpeechToTextServices/GoogleStreamingSpeechToTextService.cs:88-187 | Over any run, standard input follows that protocol, and the chunks sent, in flight and queued are every chunk enqueued, in order |
| GoogleStreaming.NoCredentialsWritesNothing | Assets/SpeechToText/Scripts/SpeechToTextServices/GoogleStreamingSpeechToTextService.cs:98-105 | Without credentials, nothing is ever written to the process |
| WindowsDictation.CauseNameRoundTrip | Assets/SpeechToText/Scripts/SpeechToTextServices/WindowsSpeechToTextService.cs:161 | Each completion cause's name reads back as that cause |
| WindowsDictation.CompletionErrorRoundTrip | Assets/SpeechToText/Scripts/SpeechToTextServices/WindowsSpeechToTextService.cs:161 | The unsuccessful-completion error text identifies its cause |
| WindowsDictation.DictationErrorRoundTrip | Assets/SpeechToText/Scripts/SpeechToTextServices/WindowsSpeechToTextService.cs:176 | The error and the HResult can both be read back from the dictation-error text |
| WindowsDictation.StartRecording | Assets/SpeechToText/Scripts/SpeechToTextServices/WindowsSpeechToTextService.cs:61-70 | A successful start resets the last result to an empty interim result and cancels any pending finish |
| WindowsDictation.StopRecording | Assets/SpeechToText/Scripts/SpeechToTextServices/WindowsSpeechToTextService.cs:76-85 | A successful stop clears the flag and starts the finishing wait |
| WindowsDictation.CheckFinish | Assets/SpeechToText/Scripts/SpeechToTextServices/WindowsSpeechToTextService.cs:92-114 | The finishing wait continues while the last result is interim and time remains; it then forces the result final and delivers it once |
| WindowsDictation.OnDictationResult | Assets/SpeechToText/Scripts/SpeechToTextServices/WindowsSpeechToTextService.cs:121-129 | A recognised phrase becomes the last result, final, with that text, and is delivered |
| WindowsDictation.OnDictationHypothesis | Assets/SpeechToText/Scripts/SpeechToTextServices/WindowsSpeechToTextService.cs:135-143 | A hypothesis becomes the last result, interim, with that text, and is delivered |
| WindowsDictation.OnDictationComplete | Assets/SpeechToText/Scripts/SpeechToTextServices/WindowsSpeechToTextService.cs:149-165 | Normal completion does nothing. A timeout is a recording timeout. Any other cause reports its error text |
| WindowsDictation.OnDictationError | Assets/SpeechToText/Scripts/SpeechToTextServices/WindowsSpeechToTextService.cs:172-178 | A dictation error reports its error and HResult text and changes nothing else |
| WindowsDictation.RunKeepsInvariant | Assets/SpeechToText/Scripts/SpeechToTextServices/WindowsSpeechToTextService.cs:61-178 | Over any run, every delivered result has exactly one text. Recording or finishing implies a last result. Finishing implies not recording |
| WindowsDictation.OneForcedDeliveryPerStop | Assets/SpeechToText/Scripts/SpeechToTextServices/WindowsSpeechToTextService.cs:92-114 | Without a new stop, frames deliver at most one forced result |
| WindowsDictation.WaitEndsAtDeadline | Assets/SpeechToText/Scripts/SpeechToTextServices/WindowsSpeechToTextService.cs:98-113 | A frame that reaches the timeout, or a final last result, ends the wait with a final result; nothing is re-delivered if it was already final |
| WindowsDictation.TimeoutThenStopFinishesNothing | Assets/SpeechToText/Scripts/SpeechToTextServices/WindowsSpeechToTextService.cs:76-156 | After a dictation timeout, a stop fails and the last interim result is never forced final |
| ServiceWidget.ErrorEntry | Assets/SpeechToText/Scripts/SpeechToTextWidgets/SpeechToTextServiceWidget.cs:403 | An error entry wraps the error text in "[Error: " and "] " |
| ServiceWidget.StartRecording | Assets/SpeechToText/Scripts/SpeechToTextWidgets/SpeechToTextServiceWidget.cs:292-301 | Starting re-enables display, clears the waiting and finality flags and the shown text, and starts the service |
| ServiceWidget.MeasureAccuracy | Assets/SpeechToText/Scripts/SpeechToTextWidgets/SpeechToTextServiceWidget.cs:379-386 | Both texts go through the special-formatting filter as written, with bracketed spans removed. The distance is the Levenshtein distance between the filtered shown text and the filtered phrase, and is at most the longer of the two. The phrase length is the filtered phrase's length |
| ServiceWidget.MatchingTextScoresZero | Assets/SpeechToText/Scripts/SpeechToTextWidgets/SpeechToTextServiceWidget.cs:379-386 | Text identical to the phrase is at distance 0 |
| ServiceWidget.ProcessEndResults | Assets/SpeechToText/Scripts/SpeechToTextWidgets/SpeechToTextServiceWidget.cs:359-372 | The last response is announced once and display stops. With a phrase, accuracy is measured on the shown text. The accuracy prefix on the final-results text is not modelled |
| ServiceWidget.StartForgetsEndTexts | Assets/SpeechToText/Scripts/SpeechToTextWidgets/SpeechToTextServiceWidget.cs:292-301 | Whatever a session's end leaves in the final-results text and on display, the next start clears both |
| ServiceWidget.StopRecording | Assets/SpeechToText/Scripts/SpeechToTextWidgets/SpeechToTextServiceWidget.cs:309-321 | After a final result, stopping ends the session at once; otherwise it waits for the last final result. The service is stopped either way |
| ServiceWidget.OnTextResult | Assets/SpeechToText/Scripts/SpeechToTextWidgets/SpeechToTextServiceWidget.cs:329-353 | While displaying, finality is recorded. A final text is appended to the final results, and one the widget was waiting for ends the session. An interim text is shown after the final results |
| ServiceWidget.OnSpeechToTextError | Assets/SpeechToText/Scripts/SpeechToTextWidgets/SpeechToTextServiceWidget.cs:398-415 | While displaying, the error entry is appended. An error the widget was waiting for ends the wait and announces the last response |
| ServiceWidget.OnRecordingTimeout | Assets/SpeechToText/Scripts/SpeechToTextWidgets/SpeechToTextServiceWidget.cs:420-427 | A timeout is forwarded and changes nothing else |
| ServiceWidget.LastResponseAtMostOnce | Assets/SpeechToText/Scripts/SpeechToTextWidgets/SpeechToTextServiceWidget.cs:341-413 | Within a session, the last response is announced at most once, and only if the widget was waiting and displaying |
| ServiceWidget.OneLastResponsePerStop | Assets/SpeechToText/Scripts/SpeechToTextWidgets/SpeechToTextServiceWidget.cs:309-321 | A stop followed by any responses announces at most one last response |
| ServiceWidget.ResultsAccumulate | Assets/SpeechToText/Scripts/SpeechToTextWidgets/SpeechToTextServiceWidget.cs:337-403 | While displaying and not waiting, the final results are the concatenation of the final texts and error entries received, in order |
| ServiceWidget.AccumulatedIsTranscript | Assets/SpeechToText/Scripts/SpeechToTextWidgets/SpeechToTextServiceWidget.cs:337-403 | The running concatenation equals the transcript of the events appended to the starting text |
| ServiceWidget.DisabledIgnoresEverything | Assets/SpeechToText/Scripts/SpeechToTextWidgets/SpeechToTextServiceWidget.cs:331-401 | Once display has stopped, results and errors change nothing |
| ComparisonWidget.AllIds | Assets/SpeechToText/Scripts/SpeechToTextWidgets/SpeechToTextComparisonWidget.cs:247-253 | The waiting set after a start is exactly the ids of the service widgets |
| ComparisonWidget.FinishComparisonSession | Assets/SpeechToText/Scripts/SpeechToTextWidgets/SpeechToTextComparisonWidget.cs:291-301 | Finishing cancels the timer and, in a session, ends it and re-enables the UI |
| ComparisonWidget.FinishIdempotent | Assets/SpeechToText/Scripts/SpeechToTextWidgets/SpeechToTextComparisonWidget.cs:294-300 | Finishing twice equals finishing once, so a late timer call is harmless |
| ComparisonWidget.OnLastResponse | Assets/SpeechToText/Scripts/SpeechToTextWidgets/SpeechToTextComparisonWidget.cs:224-233 | A last response removes the widget from the waiting set, and the session finishes exactly when the set becomes empty |
| ComparisonWidget.FanInFinishesExactlyWhenAllRespond | Assets/SpeechToText/Scripts/SpeechToTextWidgets/SpeechToTextComparisonWidget.cs:224-233 | After a sequence of last responses, the session has finished exactly when every waiting widget responded |
| ComparisonWidget.StartRecording | Assets/SpeechToText/Scripts/SpeechToTextWidgets/SpeechToTextComparisonWidget.cs:238-255 | Starting while idle enters the session, starts every service widget, and waits for all of them |
| ComparisonWidget.StopFrom | Assets/SpeechToText/Scripts/SpeechToTextWidgets/SpeechToTextComparisonWidget.cs:281-284 | The widgets from index i on are stopped with the same phrase. Those with a final last result respond at once, and the session finishes if that empties the waiting set |
| ComparisonWidget.StopRecording | Assets/SpeechToText/Scripts/SpeechToTextWidgets/SpeechToTextComparisonWidget.cs:261-286 | Stopping while recording clears the recording flag, disables the UI, arms the timer, and stops every widget with the same phrase. If some widget already had a final result, so answered at once, and none is left owing a response, the session finishes at once: the timer is cancelled and, if the session was open, the UI is enabled again. Otherwise the timer stays armed and the UI disabled. When not recording, nothing changes |
| ComparisonWidget.OnRecordButtonClicked | Assets/SpeechToText/Scripts/SpeechToTextWidgets/SpeechToTextComparisonWidget.cs:199-209 | A click toggles between starting and stopping |
| ComparisonWidget.RunKeepsInvariant | Assets/SpeechToText/Scripts/SpeechToTextWidgets/SpeechToTextComparisonWidget.cs:199-301 | Over any run, exactly one of idle, recording and awaiting responses holds, and no widget is waiting while recording |
| ComparisonWidget.TimeoutStopsRecording | Assets/SpeechToText/Scripts/SpeechToTextWidgets/SpeechToTextComparisonWidget.cs:214-217 | A recording timeout from any widget stops the recording, and does nothing when not recording |

## Left out

- Threads, coroutine scheduling and Unity frames are not modelled as such. Each coroutine is a session record advanced by explicit frame events. The callbacks of the SDKs and of the helper process are events interleaved between frames.
- The JSON text parser (`JSONObject`) is not part of this model. Responses are modelled as already-parsed JSON values.
- Floating-point arithmetic is not modelled: times, lengths and confidences are `real`. `Mathf.CeilToInt`/`FloorToInt` are exact floor and ceiling.
- `char.IsLetterOrDigit`, `char.IsWhiteSpace` and `ToLower` cover ASCII letters and digits and the common white-space characters. Unicode categories are not modelled.
- Files, paths and processes are not modelled. Whether SoX or the credentials file exists, whether the output file appears, and whether the helper process has exited are parameters. Saving WAV files, unique temp paths and clearing temp files are left out.
- SoXJob.ArgumentsReachSoX: holds only for paths without spaces. The source passes paths unquoted, so a path with a space splits into two arguments.
- Killing the helper process on destroy, the platform-specific SoX path and the non-Windows `Start` stub of the Windows service are left out.
- The response-processing coroutine of the Google service is folded into the response events. Its own lifetime (it stops once the process has exited) is not modelled.
- AudioRecording.StopRecording: the trimming of the recorded clip to the recording length is left out. The model keeps the clip and records only the forced stop.
- AudioRecording.GetChunkOfRecordedAudio: a missing clip (`null` before any recording) is not modelled.
- AudioRecording.GetChunkOfRecordedAudio: a clip holds one sample per frame. The interleaving of several channels' samples by `GetData` is not modelled, so the sample window is the source's only for a single-channel recording. The channel count itself is carried into the chunk.
- Listener null checks are folded into the delivered-notice log: every notice is recorded whether or not anyone listens.
- JsonValues.Elements: the element list of a non-container value is empty.
- The `DictationRecognizer` itself, its `Start`/`Stop` calls and the minimum-confidence setting are left out. Its events are inputs.
- Forcing the last result final is modelled as a new value. The source mutates the object it already delivered to listeners, which the model does not track.
- ServiceWidget.MeasureAccuracy: the accuracy percentage (a float and its text) is left out. The widget keeps the pair of texts compared, and the distance is stated on it.
- ServiceWidget.ProcessEndResults: the "[Accuracy: …%] " prefix that the source puts in front of the final-results text, and so on the shown text, is left out, and so is the log file write of the shown text. The model leaves the final-results text as it was. Display is off from then on, and the next start clears both texts (`ServiceWidget.StartForgetsEndTexts`), so the prefix is never read by the rest of the model.
- The widgets' colours, button texts, scroll layout, toggle group and phrase selection are left out. The selected phrase is a parameter of the stop.
- The comparison widget's 8-second timer is an event (`TimerFired`) rather than a clock.
- Cause names in `WindowsDictation` are those of Unity's `DictationCompletionCause` enum, which is not part of this model.
- The base service's `Start`/`OnDestroy` registration with the recording manager is not modelled. Its effect, the timeout callback, is an event.

## Findings

| source | as written | input that shows it | evidently intended | confidence | as-written member | corrected member |
|---|---|---|---|---|---|---|
| Assets/SpeechToText/Scripts/Utilities/StringUtilities.cs:83-158 | White space is skipped at the ends of the input, before bracketed spans are removed, so a space next to a removed span is kept at the output's edge | "[] a" gives " a"; "a []" gives "a " | With extra white space removal on, the output carries no white space at either end, as the parameter's documentation says | not executed | StringUtilities.LeadingSpaceSurvives | StringUtilities.TrimSpecialFormattingCorrected |
| Assets/SpeechToText/Scripts/SpeechToTextServices/StreamingSpeechToTextService.cs:78-91 | The inner wait can end without yielding (microphone already stopped, or a zero chunk length), so the chunk length is 0, nothing is queued, and the outer loop repeats in the same frame while the service flag stays set | the microphone stops by itself (device timeout) before the recording-timeout callback clears the service flag | The producer yields every pass, so the timeout callback can run and end the loop | not executed | Streaming.HeadSpinsOnEmptyPass | Streaming.Resume |

The accuracy measure in `ServiceWidget` uses the filter as written, as the widget does. `TrimSpecialFormattingCorrected` is the filter as its documentation describes it.

A Windows dictation timeout clears the recording flag through the recording-timeout path. The widget's following stop then fails, so the last interim result is never forced final (`WindowsDictation.TimeoutThenStopFinishesNothing`). This is stated as behaviour, not as a finding.
