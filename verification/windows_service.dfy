/**
 * The Windows dictation service: a start that resets the last result, the
 * recogniser's hypothesis, result, completion and error callbacks, and the
 * coroutine that, after a successful stop, waits for a final result and
 * forces the last one final when the wait runs out.
 */
module WindowsDictation {
  import opened Wrappers
  import opened Decimal
  import opened SpeechResults
  import opened SpeechService
  import opened SessionEnd

  /** Seconds to wait for a final result after recording stops, unless configured otherwise. */
  const DefaultSessionTimeout: real := 2.0

  /** Why the dictation recogniser completed. */
  datatype DictationCompletionCause =
    | Complete
    | AudioQualityFailure
    | Canceled
    | TimeoutExceeded
    | PauseLimitExceeded
    | NetworkFailure
    | MicrophoneUnavailable
    | UnknownError

  // ---------------------------------------------------------------------
  // Error texts
  // ---------------------------------------------------------------------

  /** The name an enumeration value is printed with. */
  function CauseName(cause: DictationCompletionCause): (name: string)
    ensures |name| > 0
  {
    match cause
    case Complete => "Complete"
    case AudioQualityFailure => "AudioQualityFailure"
    case Canceled => "Canceled"
    case TimeoutExceeded => "TimeoutExceeded"
    case PauseLimitExceeded => "PauseLimitExceeded"
    case NetworkFailure => "NetworkFailure"
    case MicrophoneUnavailable => "MicrophoneUnavailable"
    case UnknownError => "UnknownError"
  }

  /** The cause a printed name stands for, if any. */
  function CauseFromName(name: string): (cause: Option<DictationCompletionCause>)
    ensures cause.Some? ==> CauseName(cause.value) == name
  {
    if name == "Complete" then Some(Complete)
    else if name == "AudioQualityFailure" then Some(AudioQualityFailure)
    else if name == "Canceled" then Some(Canceled)
    else if name == "TimeoutExceeded" then Some(TimeoutExceeded)
    else if name == "PauseLimitExceeded" then Some(PauseLimitExceeded)
    else if name == "NetworkFailure" then Some(NetworkFailure)
    else if name == "MicrophoneUnavailable" then Some(MicrophoneUnavailable)
    else if name == "UnknownError" then Some(UnknownError)
    else None
  }

  /** Distinct causes print differently, so the name identifies the cause. */
  lemma CauseNameRoundTrip(cause: DictationCompletionCause)
    ensures CauseFromName(CauseName(cause)) == Some(cause)
  {
  }

  const CompletionErrorPrefix := "Dictation completed unsuccessfully - "

  /** The error reported for an unsuccessful completion other than a timeout. */
  function CompletionErrorText(cause: DictationCompletionCause): (text: string)
    ensures |text| > |CompletionErrorPrefix| && text[..|CompletionErrorPrefix|] == CompletionErrorPrefix
  {
    CompletionErrorPrefix + CauseName(cause)
  }

  /** The cause an unsuccessful-completion error text names, if it is one. */
  function ReadCompletionError(text: string): (cause: Option<DictationCompletionCause>)
    ensures cause.Some? ==> CompletionErrorText(cause.value) == text
  {
    if |text| >= |CompletionErrorPrefix| && text[..|CompletionErrorPrefix|] == CompletionErrorPrefix then
      var cause := CauseFromName(text[|CompletionErrorPrefix|..]);
      assert text == CompletionErrorPrefix + text[|CompletionErrorPrefix|..];
      cause
    else None
  }

  /** The completion error text names its cause. */
  lemma CompletionErrorRoundTrip(cause: DictationCompletionCause)
    ensures ReadCompletionError(CompletionErrorText(cause)) == Some(cause)
  {
    var text := CompletionErrorText(cause);
    assert text[|CompletionErrorPrefix|..] == CauseName(cause);
    CauseNameRoundTrip(cause);
  }

  const DictationErrorPrefix := "Dictation error - "
  const HResultSeparator := "; HResult = "

  /** The error reported for a recogniser error: its text and its result code. */
  function DictationErrorText(error: string, hresult: int): (text: string)
    ensures |text| > |DictationErrorPrefix| + |error| + |HResultSeparator|
    ensures text[..|DictationErrorPrefix|] == DictationErrorPrefix
  {
    DictationErrorPrefix + error + HResultSeparator + IntToString(hresult)
  }

  /** A decimal integer as `Int32.ToString()` writes it. */
  predicate IsIntText(s: string) {
    |s| > 0 && (s[0] == '-' ==> AllDigits(s[1..])) && (s[0] != '-' ==> AllDigits(s))
  }

  /**
   * The error text and result code of a recogniser error text: the code is
   * what follows the last space, written as `Int32.ToString()` writes it, and
   * the error what lies between the prefix and the separator before it.
   */
  function ReadDictationError(text: string): (r: Option<(string, int)>)
    ensures r.Some? ==> DictationErrorText(r.value.0, r.value.1) == text
  {
    var k := LastIndexOf(text, ' ');
    var p, n := |DictationErrorPrefix|, |HResultSeparator|;
    if |text| < p || text[..p] != DictationErrorPrefix || k + 1 < p + n || text[k + 1 - n..k + 1] != HResultSeparator then None
    else
      var digits := text[k + 1..];
      if !IsIntText(digits) || IntToString(ParseInt(digits)) != digits then None
      else
        var error := text[p..k + 1 - n];
        SplitInFour(text, p, k + 1 - n, k + 1);
        Some((error, ParseInt(digits)))
  }

  /** A text is its four slices between three cut points, joined again. */
  lemma SplitInFour(text: string, a: nat, b: nat, c: nat)
    requires a <= b <= c <= |text|
    ensures text == text[..a] + text[a..b] + text[b..c] + text[c..]
  {
  }

  /** A rendered integer holds no space. */
  lemma IntToStringHasNoSpace(i: int)
    ensures ' ' !in IntToString(i)
  {
    var s := IntToString(i);
    forall k | 0 <= k < |s| ensures s[k] != ' ' {
      if i < 0 && k > 0 {
        assert s[k] == s[1..][k - 1];
      }
    }
  }

  /** The recogniser error text gives back both the error and the result code. */
  lemma DictationErrorRoundTrip(error: string, hresult: int)
    ensures ReadDictationError(DictationErrorText(error, hresult)) == Some((error, hresult))
  {
    var head := DictationErrorPrefix + error + HResultSeparator;
    var digits := IntToString(hresult);
    var text := head + digits;
    IntToStringHasNoSpace(hresult);
    var k := LastIndexOf(text, ' ');
    assert text[|head| - 1] == ' ';
    assert k == |head| - 1;
    assert text[k + 1..] == digits;
    assert text[k + 1 - |HResultSeparator|..k + 1] == HResultSeparator;
    assert text[|DictationErrorPrefix|..k + 1 - |HResultSeparator|] == error;
    ParseIntToString(hresult);
  }

  // ---------------------------------------------------------------------
  // The session
  // ---------------------------------------------------------------------

  /**
   * The service: the base's recording flag, the last result (none before
   * the first start), the elapsed time of the suspended FinishSession
   * coroutine while it runs, the wait's timeout, and every notice delivered
   * to the listeners.
   */
  datatype Dictation = Dictation(
    base: Service,
    lastResult: Option<SpeechToTextResult>,
    finishing: Option<real>,
    timeout: real,
    delivered: seq<Notice>)

  /** A service before its first start. */
  function Create(timeout: real): (d: Dictation)
    ensures !d.base.isRecording && d.lastResult.None? && d.finishing.None? && d.delivered == []
  {
    Dictation(SpeechService.Idle, None, None, timeout, [])
  }

  /**
   * A successful start resets the last result to one empty interim
   * alternative, and, since the base start stops every coroutine, cancels a
   * FinishSession still waiting; a failed start changes nothing.
   */
  function StartRecording(d: Dictation): (r: (Dictation, bool))
    ensures r.1 <==> !d.base.isRecording
    ensures r.1 ==> r.0.base.isRecording && r.0.lastResult == Some(NewTextResult("", false))
    ensures r.1 ==> r.0.finishing.None? && r.0.delivered == d.delivered && r.0.timeout == d.timeout
    ensures !r.1 ==> r.0 == d
  {
    var (base, started) := SpeechService.StartRecording(d.base);
    if started then (d.(base := base, lastResult := Some(NewTextResult("", false)), finishing := None), true)
    else (d, false)
  }

  /**
   * The FinishSession loop's check with `elapsed` seconds gone: while the
   * last result is interim and time is left, the coroutine stays suspended;
   * otherwise it ends, forcing an interim last result final and delivering
   * it once more.
   */
  function CheckFinish(d: Dictation, elapsed: real): (r: Dictation)
    requires d.lastResult.Some?
    ensures StillWaiting(d.lastResult.value, elapsed, d.timeout) ==> r == d.(finishing := Some(elapsed))
    ensures !StillWaiting(d.lastResult.value, elapsed, d.timeout) ==>
      && r.finishing.None? && r.lastResult == Some(Finalise(d.lastResult.value).0)
      && r.lastResult.value.isFinal
      && r.delivered == d.delivered + ForcedNotices(d.lastResult.value)
      && r.base == d.base && r.timeout == d.timeout
  {
    var last := d.lastResult.value;
    if StillWaiting(last, elapsed, d.timeout) then d.(finishing := Some(elapsed))
    else d.(lastResult := Some(Finalise(last).0), finishing := None, delivered := d.delivered + ForcedNotices(last))
  }

  /**
   * Stopping succeeds only while recording, and then starts FinishSession,
   * whose loop is checked at once with no time gone; a failed stop changes
   * nothing.
   */
  function StopRecording(d: Dictation): (r: (Dictation, bool))
    ensures r.1 <==> d.base.isRecording
    ensures r.1 ==> !r.0.base.isRecording
    ensures r.1 && d.lastResult.Some? ==> r.0 == CheckFinish(d.(base := r.0.base), 0.0)
    ensures !r.1 ==> r.0 == d
  {
    var (base, stopped) := SpeechService.StopRecording(d.base);
    if !stopped then (d, false)
    else if d.lastResult.None? then (d.(base := base), true)
    else (CheckFinish(d.(base := base), 0.0), true)
  }

  /**
   * A frame: a suspended FinishSession adds the frame's time and checks its
   * loop again; with no FinishSession running nothing happens.
   */
  function OnFrame(d: Dictation, deltaTime: real): (r: Dictation)
    ensures d.finishing.None? ==> r == d
    ensures d.finishing.Some? && d.lastResult.Some? ==> r == CheckFinish(d, d.finishing.value + deltaTime)
  {
    match d.finishing
    case None => d
    case Some(elapsed) => if d.lastResult.Some? then CheckFinish(d, elapsed + deltaTime) else d
  }

  /** A result is final: it is delivered and becomes the last result. */
  function OnDictationResult(d: Dictation, text: string, confidence: ConfidenceLevel): (r: Dictation)
    ensures r.lastResult.Some? && r.lastResult.value.isFinal
    ensures r.lastResult.value.HasText() && r.lastResult.value.FirstText() == text
    ensures r.delivered == d.delivered + [TextResult(r.lastResult.value)]
    ensures r == d.(lastResult := r.lastResult, delivered := r.delivered)
  {
    var result := NewTextResult(text, true);
    d.(lastResult := Some(result), delivered := d.delivered + [TextResult(result)])
  }

  /** A hypothesis is interim: it is delivered and becomes the last result. */
  function OnDictationHypothesis(d: Dictation, text: string): (r: Dictation)
    ensures r.lastResult.Some? && !r.lastResult.value.isFinal
    ensures r.lastResult.value.HasText() && r.lastResult.value.FirstText() == text
    ensures r.delivered == d.delivered + [TextResult(r.lastResult.value)]
    ensures r == d.(lastResult := r.lastResult, delivered := r.delivered)
  {
    var result := NewTextResult(text, false);
    d.(lastResult := Some(result), delivered := d.delivered + [TextResult(result)])
  }

  /**
   * Completion: a normal one does nothing, a timeout takes the base's
   * recording-timeout path, and any other cause is reported as an error
   * naming it.
   */
  function OnDictationComplete(d: Dictation, cause: DictationCompletionCause): (r: Dictation)
    ensures cause == Complete ==> r == d
    ensures cause == TimeoutExceeded ==>
      r == d.(base := r.base, delivered := d.delivered + [RecordingTimeout]) && !r.base.isRecording
    ensures cause != Complete && cause != TimeoutExceeded ==>
      r == d.(delivered := d.delivered + [Error(CompletionErrorText(cause))])
  {
    match cause
    case Complete => d
    case TimeoutExceeded =>
      var (base, notices) := OnRecordingTimeout(d.base);
      d.(base := base, delivered := d.delivered + notices)
    case _ => d.(delivered := d.delivered + [Error(CompletionErrorText(cause))])
  }

  /** A recogniser error is reported with its text and result code. */
  function OnDictationError(d: Dictation, error: string, hresult: int): (r: Dictation)
    ensures r.delivered == d.delivered + [Error(DictationErrorText(error, hresult))]
    ensures r == d.(delivered := r.delivered)
  {
    d.(delivered := d.delivered + [Error(DictationErrorText(error, hresult))])
  }

  /** What can happen to the service between two looks at it. */
  datatype Event =
    | Start
    | Stop
    | Frame(deltaTime: real)
    | Hypothesis(text: string)
    | Result(text: string, confidence: ConfidenceLevel)
    | Completed(cause: DictationCompletionCause)
    | DictationError(error: string, hresult: int)

  function Step(d: Dictation, e: Event): Dictation {
    match e
    case Start => StartRecording(d).0
    case Stop => StopRecording(d).0
    case Frame(deltaTime) => OnFrame(d, deltaTime)
    case Hypothesis(text) => OnDictationHypothesis(d, text)
    case Result(text, confidence) => OnDictationResult(d, text, confidence)
    case Completed(cause) => OnDictationComplete(d, cause)
    case DictationError(error, hresult) => OnDictationError(d, error, hresult)
  }

  function Run(d: Dictation, events: seq<Event>): Dictation
    decreases |events|
  {
    if |events| == 0 then d else Run(Step(d, events[0]), events[1..])
  }

  // ---------------------------------------------------------------------
  // Properties of sessions
  // ---------------------------------------------------------------------

  /**
   * Every result this service keeps or delivers has exactly one plain
   * alternative, and FinishSession runs only after recording has stopped
   * and a last result exists.
   */
  ghost predicate Invariant(d: Dictation) {
    && (d.lastResult.Some? ==> IsSingleTextResult(d.lastResult.value))
    && (forall k :: 0 <= k < |d.delivered| && d.delivered[k].TextResult? ==> IsSingleTextResult(d.delivered[k].result))
    && (d.base.isRecording ==> d.lastResult.Some?)
    && (d.finishing.Some? ==> !d.base.isRecording && d.lastResult.Some?)
  }

  lemma DeliverKeepsInvariant(d: Dictation, notices: seq<Notice>)
    requires Invariant(d)
    requires forall k :: 0 <= k < |notices| && notices[k].TextResult? ==> IsSingleTextResult(notices[k].result)
    ensures Invariant(d.(delivered := d.delivered + notices))
  {
    var delivered := d.delivered + notices;
    forall k | 0 <= k < |delivered| && delivered[k].TextResult?
      ensures IsSingleTextResult(delivered[k].result)
    {
      if k >= |d.delivered| {
        assert delivered[k] == notices[k - |d.delivered|];
      }
    }
  }

  lemma StepKeepsInvariant(d: Dictation, e: Event)
    requires Invariant(d)
    ensures Invariant(Step(d, e))
  {
    match e
    case Start =>
    case Stop =>
      if d.base.isRecording {
        var stopped := d.(base := StopRecording(d).0.base);
        DeliverKeepsInvariant(stopped, ForcedNotices(d.lastResult.value));
      }
    case Frame(deltaTime) =>
      if d.finishing.Some? {
        DeliverKeepsInvariant(d, ForcedNotices(d.lastResult.value));
      }
    case Hypothesis(text) =>
      DeliverKeepsInvariant(d, [TextResult(NewTextResult(text, false))]);
    case Result(text, _) =>
      DeliverKeepsInvariant(d, [TextResult(NewTextResult(text, true))]);
    case Completed(cause) =>
      DeliverKeepsInvariant(d.(base := Step(d, e).base), Step(d, e).delivered[|d.delivered|..]);
    case DictationError(error, hresult) =>
      DeliverKeepsInvariant(d, [Error(DictationErrorText(error, hresult))]);
  }

  /** The invariant holds from creation through any events. */
  lemma {:induction false} RunKeepsInvariant(d: Dictation, events: seq<Event>)
    requires Invariant(d)
    ensures Invariant(Run(d, events))
    decreases |events|
  {
    if |events| > 0 {
      StepKeepsInvariant(d, events[0]);
      RunKeepsInvariant(Step(d, events[0]), events[1..]);
    }
  }

  /** How many notices frames deliver over some events: the forced deliveries. */
  function ForcedDeliveries(d: Dictation, events: seq<Event>): nat
    decreases |events|
  {
    if |events| == 0 then 0
    else
      var next := Step(d, events[0]);
      (if events[0].Frame? then |next.delivered| - |d.delivered| else 0) + ForcedDeliveries(next, events[1..])
  }

  /**
   * Without a stop, frames force at most one delivery, and none unless
   * FinishSession is already waiting: one stop forces at most one result.
   */
  lemma {:induction false} OneForcedDeliveryPerStop(d: Dictation, events: seq<Event>)
    requires forall k :: 0 <= k < |events| ==> !events[k].Stop?
    ensures ForcedDeliveries(d, events) <= if d.finishing.Some? then 1 else 0
    decreases |events|
  {
    if |events| > 0 {
      var next := Step(d, events[0]);
      OneForcedDeliveryPerStop(next, events[1..]);
      if events[0].Frame? && d.finishing.Some? && d.lastResult.Some? {
        assert |ForcedNotices(d.lastResult.value)| <= 1;
      }
    }
  }

  /** A frame that finds the wait over ends FinishSession with a final last result. */
  lemma WaitEndsAtDeadline(d: Dictation, deltaTime: real)
    requires Invariant(d) && d.finishing.Some?
    requires d.finishing.value + deltaTime >= d.timeout || d.lastResult.value.isFinal
    ensures OnFrame(d, deltaTime).finishing.None?
    ensures OnFrame(d, deltaTime).lastResult.value.isFinal
    ensures d.lastResult.value.isFinal ==> OnFrame(d, deltaTime).delivered == d.delivered
  {
  }

  /**
   * A recogniser timeout clears the recording flag, so the stop that
   * follows fails and FinishSession never runs: the last result is never
   * forced final for that session.
   */
  lemma TimeoutThenStopFinishesNothing(d: Dictation)
    requires Invariant(d) && d.base.isRecording
    ensures var t := OnDictationComplete(d, TimeoutExceeded);
      && t.delivered == d.delivered + [RecordingTimeout]
      && !StopRecording(t).1
      && StopRecording(t).0.finishing.None?
  {
  }
}
