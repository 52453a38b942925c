/**
 * The per-service widget: it accumulates final results, overlays the
 * latest interim result, and after a stop waits for the session's last
 * response, which a final result or an error supplies. Its listeners hear
 * "received last response" at most once per stop.
 */
module ServiceWidget {
  import opened Wrappers
  import opened SpeechResults
  import opened StringUtilities

  /** What the widget asks of its service or tells its listeners. */
  datatype Output =
    | StartService
    | StopService
    | ReceivedLastResponse
    | ForwardedTimeout

  /** What the end of a session compares: the displayed text and the phrase. */
  datatype AccuracyCheck = AccuracyCheck(text: string, phrase: string)

  /** The inputs of the accuracy percentage: the edit distance and the compared phrase's length. */
  datatype Accuracy = Accuracy(distance: nat, phraseLength: nat)

  /**
   * The widget: whether it displays what it receives, whether it waits for
   * the session's last response, whether the last result was final, the
   * final results so far, the text on display, the phrase to compare
   * against, the comparison made at the end of the session, and its
   * outputs in order.
   */
  datatype Widget = Widget(
    willDisplay: bool,
    waiting: bool,
    lastResultWasFinal: bool,
    previousFinalResults: string,
    shown: string,
    comparisonPhrase: Option<string>,
    accuracy: Option<AccuracyCheck>,
    outputs: seq<Output>)

  /** A widget before its first session. */
  const Initial := Widget(false, false, false, "", "", None, None, [])

  /** How many times the last-response listeners were told. */
  function LastResponses(outputs: seq<Output>): nat {
    if |outputs| == 0 then 0
    else LastResponses(outputs[..|outputs| - 1]) + if outputs[|outputs| - 1] == ReceivedLastResponse then 1 else 0
  }

  lemma LastResponsesAppend(outputs: seq<Output>, o: Output)
    ensures LastResponses(outputs + [o]) == LastResponses(outputs) + if o == ReceivedLastResponse then 1 else 0
  {
    assert (outputs + [o])[..|outputs|] == outputs;
  }

  /** What an error adds to the results text. */
  function ErrorEntry(text: string): (entry: string)
    ensures |entry| == |text| + 10 && entry[8..8 + |text|] == text
  {
    "[Error: " + text + "] "
  }

  /**
   * Starting clears the results and the waiting state, turns the display on,
   * and starts the service.
   */
  function StartRecording(w: Widget): (r: Widget)
    ensures r.willDisplay && !r.waiting && !r.lastResultWasFinal
    ensures r.previousFinalResults == "" && r.shown == "" && r.accuracy.None?
    ensures r.outputs == w.outputs + [StartService]
  {
    w.(willDisplay := true, waiting := false, lastResultWasFinal := false,
       previousFinalResults := "", shown := "", accuracy := None, outputs := w.outputs + [StartService])
  }

  /**
   * The accuracy inputs: the distance, ignoring case, between the displayed
   * text and the phrase once both are stripped of "%words" and "[spans]",
   * and the stripped phrase's length.
   */
  function MeasureAccuracy(check: AccuracyCheck): (a: Accuracy)
    ensures a.phraseLength == |TrimSpecialFormatting(check.phrase, BracketOptions())|
    ensures a.distance == Levenshtein(TrimSpecialFormatting(check.text, BracketOptions()),
                                      TrimSpecialFormatting(check.phrase, BracketOptions()), false)
    ensures a.distance <= Max(|TrimSpecialFormatting(check.text, BracketOptions())|, a.phraseLength)
  {
    var result := TrimSpecialFormatting(check.text, BracketOptions());
    var original := TrimSpecialFormatting(check.phrase, BracketOptions());
    LevenshteinBounds(result, original, false);
    Accuracy(Levenshtein(result, original, false), |original|)
  }

  /** A text that matches the phrase scores no errors at all. */
  lemma MatchingTextScoresZero(text: string)
    ensures MeasureAccuracy(AccuracyCheck(text, text)).distance == 0
  {
    LevenshteinIdentity(TrimSpecialFormatting(text, BracketOptions()), false);
  }

  /**
   * The end of a session: with a phrase to compare against, the displayed
   * text is compared with it; then the listeners hear
   * that the last response came, and the display is turned off.
   */
  function ProcessEndResults(w: Widget): (r: Widget)
    ensures !r.willDisplay && r.outputs == w.outputs + [ReceivedLastResponse]
    ensures w.comparisonPhrase.Some? ==> r.accuracy == Some(AccuracyCheck(w.shown, w.comparisonPhrase.value))
    ensures w.comparisonPhrase.None? ==> r.accuracy == w.accuracy && r.shown == w.shown
    ensures r.previousFinalResults == w.previousFinalResults && r.waiting == w.waiting
    ensures r.lastResultWasFinal == w.lastResultWasFinal && r.comparisonPhrase == w.comparisonPhrase
  {
    var measured :=
      if w.comparisonPhrase.Some? then
        w.(accuracy := Some(AccuracyCheck(w.shown, w.comparisonPhrase.value)), shown := w.previousFinalResults)
      else w;
    measured.(willDisplay := false, outputs := measured.outputs + [ReceivedLastResponse])
  }

  /**
   * A new session forgets the texts of the previous one: whatever the end of
   * a session left in the final results and on display, starting again
   * clears both.
   */
  lemma StartForgetsEndTexts(w: Widget, finals: string, shown: string)
    ensures StartRecording(ProcessEndResults(w).(previousFinalResults := finals, shown := shown))
         == StartRecording(ProcessEndResults(w))
  {
  }

  /**
   * Stopping keeps the phrase, ends the session at once when the last
   * result was final and waits for the last response otherwise, then stops
   * the service.
   */
  function StopRecording(w: Widget, phrase: Option<string>): (r: Widget)
    ensures r.comparisonPhrase == phrase
    ensures w.lastResultWasFinal ==> !r.willDisplay && r.waiting == w.waiting
    ensures w.lastResultWasFinal ==> r.outputs == w.outputs + [ReceivedLastResponse, StopService]
    ensures !w.lastResultWasFinal ==> r == w.(comparisonPhrase := phrase, waiting := true, outputs := w.outputs + [StopService])
  {
    var kept := w.(comparisonPhrase := phrase);
    var ended := if kept.lastResultWasFinal then ProcessEndResults(kept) else kept.(waiting := true);
    ended.(outputs := ended.outputs + [StopService])
  }

  /**
   * A result, while displaying: a final one is appended to the final
   * results, which are shown, and ends the session if the widget is
   * waiting; an interim one is shown after the final results without
   * joining them. A result without alternatives throws once the finality is
   * recorded, so nothing else changes. Results are ignored while the
   * display is off.
   */
  function OnTextResult(w: Widget, result: SpeechToTextResult): (r: Widget)
    ensures !w.willDisplay ==> r == w
    ensures w.willDisplay ==> r.lastResultWasFinal == result.isFinal
    ensures w.willDisplay && !result.HasText() ==> r == w.(lastResultWasFinal := result.isFinal)
    ensures w.willDisplay && result.HasText() && result.isFinal ==>
      && r.previousFinalResults == w.previousFinalResults + result.FirstText()
      && (w.waiting ==> !r.waiting && !r.willDisplay && r.outputs == w.outputs + [ReceivedLastResponse])
      && (!w.waiting ==> r.willDisplay && r.shown == r.previousFinalResults && r.outputs == w.outputs)
    ensures w.willDisplay && result.HasText() && !result.isFinal ==>
      r == w.(lastResultWasFinal := false, shown := w.previousFinalResults + result.FirstText())
  {
    if !w.willDisplay then w
    else
      var noted := w.(lastResultWasFinal := result.isFinal);
      if !result.HasText() then noted
      else if result.isFinal then
        var appended := w.previousFinalResults + result.FirstText();
        var shown := noted.(previousFinalResults := appended, shown := appended);
        if w.waiting then ProcessEndResults(shown.(waiting := false)) else shown
      else noted.(shown := w.previousFinalResults + result.FirstText())
  }

  /**
   * An error, while displaying, is appended to the results and shown; if
   * the widget was waiting, the error is the session's last response, and
   * the display stays on. Errors are ignored while the display is off.
   */
  function OnSpeechToTextError(w: Widget, text: string): (r: Widget)
    ensures !w.willDisplay ==> r == w
    ensures w.willDisplay ==> r.willDisplay && !r.waiting
    ensures w.willDisplay ==> r.previousFinalResults == w.previousFinalResults + ErrorEntry(text)
    ensures w.willDisplay ==> r.shown == r.previousFinalResults && r.lastResultWasFinal == w.lastResultWasFinal
    ensures w.willDisplay ==> r.outputs == w.outputs + if w.waiting then [ReceivedLastResponse] else []
  {
    if !w.willDisplay then w
    else
      var appended := w.previousFinalResults + ErrorEntry(text);
      var shown := w.(previousFinalResults := appended, shown := appended);
      if w.waiting then shown.(waiting := false, outputs := w.outputs + [ReceivedLastResponse]) else shown
  }

  /** The service's recording timeout is passed on to the widget's own listeners. */
  function OnRecordingTimeout(w: Widget): (r: Widget)
    ensures r == w.(outputs := w.outputs + [ForwardedTimeout])
  {
    w.(outputs := w.outputs + [ForwardedTimeout])
  }

  /** What can happen to a widget. */
  datatype Event =
    | Start
    | Stop(phrase: Option<string>)
    | Result(result: SpeechToTextResult)
    | Failure(text: string)
    | Timeout

  function Step(w: Widget, e: Event): Widget {
    match e
    case Start => StartRecording(w)
    case Stop(phrase) => StopRecording(w, phrase)
    case Result(result) => OnTextResult(w, result)
    case Failure(text) => OnSpeechToTextError(w, text)
    case Timeout => OnRecordingTimeout(w)
  }

  function Run(w: Widget, events: seq<Event>): Widget
    decreases |events|
  {
    if |events| == 0 then w else Run(Step(w, events[0]), events[1..])
  }

  /** Events that neither start nor stop a session. */
  predicate WithinSession(events: seq<Event>) {
    forall k :: 0 <= k < |events| ==> !events[k].Start? && !events[k].Stop?
  }

  /**
   * Within a session the listeners hear at most one more last response, and
   * only if the widget is waiting with its display on.
   */
  lemma {:induction false} LastResponseAtMostOnce(w: Widget, events: seq<Event>)
    requires WithinSession(events)
    ensures LastResponses(Run(w, events).outputs) <= LastResponses(w.outputs) + if w.waiting && w.willDisplay then 1 else 0
    decreases |events|
  {
    if |events| > 0 {
      var next := Step(w, events[0]);
      match events[0] {
        case Result(result) =>
          if w.willDisplay && result.HasText() && result.isFinal && w.waiting {
            LastResponsesAppend(w.outputs, ReceivedLastResponse);
          }
        case Failure(text) =>
          if w.willDisplay && w.waiting {
            LastResponsesAppend(w.outputs, ReceivedLastResponse);
          }
        case Timeout =>
          LastResponsesAppend(w.outputs, ForwardedTimeout);
        case _ =>
      }
      LastResponseAtMostOnce(next, events[1..]);
    }
  }

  /**
   * Between one stop and the next start or stop, the last-response
   * listeners are told at most once.
   */
  lemma OneLastResponsePerStop(w: Widget, phrase: Option<string>, events: seq<Event>)
    requires WithinSession(events)
    ensures LastResponses(Run(StopRecording(w, phrase), events).outputs) <= LastResponses(w.outputs) + 1
  {
    var stopped := StopRecording(w, phrase);
    if w.lastResultWasFinal {
      LastResponsesAppend(w.outputs, ReceivedLastResponse);
      LastResponsesAppend(w.outputs + [ReceivedLastResponse], StopService);
      assert w.outputs + [ReceivedLastResponse, StopService] == w.outputs + [ReceivedLastResponse] + [StopService];
    } else {
      LastResponsesAppend(w.outputs, StopService);
    }
    LastResponseAtMostOnce(stopped, events);
  }

  /** What a result or an error adds to the final results of a displaying widget. */
  function Entry(e: Event): string {
    match e
    case Result(result) => if result.isFinal && result.HasText() then result.FirstText() else ""
    case Failure(text) => ErrorEntry(text)
    case _ => ""
  }

  /** The text some events add to the final results, in order. */
  function Transcript(events: seq<Event>): string {
    if |events| == 0 then "" else Entry(events[0]) + Transcript(events[1..])
  }

  /** Events that are all results and errors. */
  predicate OnlyResponses(events: seq<Event>) {
    forall k :: 0 <= k < |events| ==> events[k].Result? || events[k].Failure?
  }

  lemma ResponsesTail(events: seq<Event>)
    requires OnlyResponses(events) && |events| > 0
    ensures events[0].Result? || events[0].Failure?
    ensures OnlyResponses(events[1..])
  {
    forall k | 0 <= k < |events| - 1 ensures events[1..][k].Result? || events[1..][k].Failure? {
      assert events[1..][k] == events[k + 1];
    }
  }

  /** The final results after some events, folded from the left as the widget sees them. */
  function Accumulated(previous: string, events: seq<Event>): string
    decreases |events|
  {
    if |events| == 0 then previous else Accumulated(previous + Entry(events[0]), events[1..])
  }

  lemma {:induction false} AccumulatedIsTranscript(previous: string, events: seq<Event>)
    ensures Accumulated(previous, events) == previous + Transcript(events)
    decreases |events|
  {
    if |events| > 0 {
      var e, t := Entry(events[0]), Transcript(events[1..]);
      assert Transcript(events) == e + t;
      assert Accumulated(previous, events) == Accumulated(previous + e, events[1..]);
      AccumulatedIsTranscript(previous + e, events[1..]);
      assert (previous + e) + t == previous + (e + t);
    }
  }

  /**
   * While the widget displays and is not waiting, results and errors change
   * neither state, and announce nothing.
   */
  lemma {:induction false} ResponsesKeepDisplay(w: Widget, events: seq<Event>)
    requires w.willDisplay && !w.waiting
    requires OnlyResponses(events)
    ensures Run(w, events).willDisplay && !Run(w, events).waiting
    ensures Run(w, events).outputs == w.outputs
    decreases |events|
  {
    if |events| > 0 {
      var next := AccumulateStep(w, events[0]);
      ResponsesTail(events);
      ResponsesKeepDisplay(next, events[1..]);
    }
  }

  /**
   * Meanwhile results and errors accumulate in arrival order: the final
   * results become the earlier ones followed by every final text and error
   * entry.
   */
  lemma ResultsAccumulate(w: Widget, events: seq<Event>)
    requires w.willDisplay && !w.waiting
    requires OnlyResponses(events)
    ensures Run(w, events).previousFinalResults == w.previousFinalResults + Transcript(events)
  {
    AccumulatedRun(w, events);
    AccumulatedIsTranscript(w.previousFinalResults, events);
  }

  lemma {:induction false} AccumulatedRun(w: Widget, events: seq<Event>)
    requires w.willDisplay && !w.waiting
    requires OnlyResponses(events)
    ensures Run(w, events).previousFinalResults == Accumulated(w.previousFinalResults, events)
    decreases |events|
  {
    if |events| > 0 {
      var next := AccumulateStep(w, events[0]);
      ResponsesTail(events);
      AccumulatedRun(next, events[1..]);
    }
  }

  lemma AccumulateStep(w: Widget, e: Event) returns (next: Widget)
    requires w.willDisplay && !w.waiting && (e.Result? || e.Failure?)
    ensures next == Step(w, e)
    ensures next.previousFinalResults == w.previousFinalResults + Entry(e)
    ensures next.willDisplay && !next.waiting && next.outputs == w.outputs
  {
    next := Step(w, e);
  }

  /** Once the display is off, results and errors change nothing. */
  lemma {:induction false} DisabledIgnoresEverything(w: Widget, events: seq<Event>)
    requires !w.willDisplay
    requires OnlyResponses(events)
    ensures Run(w, events) == w
    decreases |events|
  {
    if |events| > 0 {
      ResponsesTail(events);
      DisabledIgnoresEverything(Step(w, events[0]), events[1..]);
    }
  }
}
