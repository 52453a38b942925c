/**
 * The comparison widget: one record button drives every service widget;
 * after a stop it waits for each of them to report its last response, or
 * for one shared timer, and then re-enables its interface exactly once.
 */
module ComparisonWidget {
  import opened Wrappers
  import opened SpeechResults
  import ServiceWidget

  /**
   * The widget's own flags: whether a comparison session is open, whether
   * it records, whether the finish timer is armed, and whether its button
   * and phrase toggles take input.
   */
  datatype Control = Control(inSession: bool, isRecording: bool, timerArmed: bool, uiEnabled: bool)

  /** The flags, the widgets still owing a last response, and the service widgets by position. */
  datatype Comparison = Comparison(control: Control, waiting: set<nat>, widgets: seq<ServiceWidget.Widget>)

  /** A comparison widget before its first session. */
  function Create(widgets: seq<ServiceWidget.Widget>): (c: Comparison)
    ensures Idle(c.control) && c.waiting == {} && c.widgets == widgets
  {
    Comparison(Control(false, false, false, true), {}, widgets)
  }

  /** The three phases a comparison widget moves through. */
  predicate Idle(k: Control) {
    !k.inSession && !k.isRecording && !k.timerArmed && k.uiEnabled
  }

  predicate Recording(k: Control) {
    k.inSession && k.isRecording && !k.timerArmed && k.uiEnabled
  }

  predicate AwaitingResponses(k: Control) {
    k.inSession && !k.isRecording && k.timerArmed && !k.uiEnabled
  }

  /** The positions of `n` widgets. */
  function AllIds(n: nat): (ids: set<nat>)
    ensures forall i: nat :: i in ids <==> i < n
  {
    if n == 0 then {} else AllIds(n - 1) + {n - 1}
  }

  // ---------------------------------------------------------------------
  // Finishing a session
  // ---------------------------------------------------------------------

  /**
   * Finishing always cancels the timer; only the first call of a session
   * closes it and re-enables the interface.
   */
  function Finished(k: Control): (r: Control)
    ensures !r.inSession && !r.timerArmed && r.isRecording == k.isRecording
    ensures k.inSession ==> r.uiEnabled
    ensures !k.inSession ==> r == k.(timerArmed := false)
  {
    if k.inSession then k.(inSession := false, timerArmed := false, uiEnabled := true)
    else k.(timerArmed := false)
  }

  function FinishComparisonSession(c: Comparison): (r: Comparison)
    ensures r == c.(control := Finished(c.control))
  {
    c.(control := Finished(c.control))
  }

  /** Finishing twice is finishing once: a late timer or a late response does nothing more. */
  lemma FinishIdempotent(c: Comparison)
    ensures FinishComparisonSession(FinishComparisonSession(c)) == FinishComparisonSession(c)
  {
  }

  /** Awaiting responses, finishing closes the session and gives the interface back. */
  lemma FinishEndsAwaiting(c: Comparison)
    requires AwaitingResponses(c.control)
    ensures Idle(FinishComparisonSession(c).control)
  {
  }

  /**
   * A widget's last response: it no longer owes one, and when none is owed
   * any more the session is finished.
   */
  function OnLastResponse(c: Comparison, i: nat): (r: Comparison)
    ensures r.waiting == c.waiting - {i} && r.widgets == c.widgets
    ensures r.waiting == {} ==> r.control == Finished(c.control)
    ensures r.waiting != {} ==> r.control == c.control
  {
    var left := c.waiting - {i};
    if left == {} then FinishComparisonSession(c.(waiting := left)) else c.(waiting := left)
  }

  /** The last responses of some widgets, in order. */
  function FanIn(c: Comparison, ids: seq<nat>): Comparison
    decreases |ids|
  {
    if |ids| == 0 then c else FanIn(OnLastResponse(c, ids[0]), ids[1..])
  }

  /**
   * The fan-in: once every owing widget has responded the session is
   * finished; while one of them has not, the flags stay as they are.
   */
  lemma {:induction false} FanInFinishesExactlyWhenAllRespond(c: Comparison, ids: seq<nat>)
    requires |ids| > 0
    ensures (forall i :: i in c.waiting ==> i in ids) ==> FanIn(c, ids).control == Finished(c.control)
    ensures (exists i :: i in c.waiting && i !in ids) ==> FanIn(c, ids).control == c.control
    ensures FanIn(c, ids).waiting == c.waiting - set i | i in ids
    decreases |ids|
  {
    var next := OnLastResponse(c, ids[0]);
    if |ids| > 1 {
      FanInFinishesExactlyWhenAllRespond(next, ids[1..]);
      assert forall i :: i in ids <==> i == ids[0] || i in ids[1..];
      if next.waiting == {} {
        assert Finished(next.control) == Finished(c.control);
      }
    }
  }

  // ---------------------------------------------------------------------
  // Starting and stopping
  // ---------------------------------------------------------------------

  /**
   * Starting, unless already recording: the session opens, and every
   * service widget is started and owes a last response.
   */
  function StartRecording(c: Comparison): (r: Comparison)
    ensures c.control.isRecording ==> r == c
    ensures !c.control.isRecording ==>
      && r.control == c.control.(inSession := true, isRecording := true)
      && r.waiting == AllIds(|c.widgets|)
      && |r.widgets| == |c.widgets|
      && forall i :: 0 <= i < |c.widgets| ==> r.widgets[i] == ServiceWidget.StartRecording(c.widgets[i])
  {
    if c.control.isRecording then c
    else
      var started := seq(|c.widgets|, i requires 0 <= i < |c.widgets| => ServiceWidget.StartRecording(c.widgets[i]));
      Comparison(c.control.(inSession := true, isRecording := true), AllIds(|c.widgets|), started)
  }

  /**
   * One service widget is told to stop with the phrase; one whose last
   * result was final responds at once.
   */
  function StopWidget(c: Comparison, i: nat, phrase: Option<string>): (r: Comparison)
    requires i < |c.widgets|
    ensures r.widgets == c.widgets[i := ServiceWidget.StopRecording(c.widgets[i], phrase)]
    ensures c.widgets[i].lastResultWasFinal ==> r == OnLastResponse(c.(widgets := r.widgets), i)
    ensures !c.widgets[i].lastResultWasFinal ==> r == c.(widgets := r.widgets)
  {
    var stopped := c.(widgets := c.widgets[i := ServiceWidget.StopRecording(c.widgets[i], phrase)]);
    if c.widgets[i].lastResultWasFinal then OnLastResponse(stopped, i) else stopped
  }

  /** The widgets from position `i` on that respond as soon as they are stopped. */
  function PromptFrom(widgets: seq<ServiceWidget.Widget>, i: nat): set<nat> {
    set j: nat | i <= j < |widgets| && widgets[j].lastResultWasFinal
  }

  /**
   * The stop loop from position `i`: every later widget is stopped with
   * the same phrase, those that respond at once stop owing, and the session
   * is finished exactly when one of them responded and none is left owing.
   */
  function StopFrom(c: Comparison, i: nat, phrase: Option<string>): (r: Comparison)
    requires i <= |c.widgets|
    ensures |r.widgets| == |c.widgets|
    ensures forall j :: 0 <= j < i ==> r.widgets[j] == c.widgets[j]
    ensures forall j :: i <= j < |c.widgets| ==> r.widgets[j] == ServiceWidget.StopRecording(c.widgets[j], phrase)
    ensures r.waiting == c.waiting - PromptFrom(c.widgets, i)
    ensures PromptFrom(c.widgets, i) != {} && r.waiting == {} ==> r.control == Finished(c.control)
    ensures !(PromptFrom(c.widgets, i) != {} && r.waiting == {}) ==> r.control == c.control
    decreases |c.widgets| - i
  {
    if i == |c.widgets| then
      assert PromptFrom(c.widgets, i) == {};
      c
    else
      var next := StopWidget(c, i, phrase);
      var r := StopFrom(next, i + 1, phrase);
      StopFromStep(c, i, phrase, next, r);
      r
  }

  lemma StopFromStep(c: Comparison, i: nat, phrase: Option<string>, next: Comparison, r: Comparison)
    requires i < |c.widgets| && next == StopWidget(c, i, phrase)
    requires |r.widgets| == |next.widgets|
    requires r.waiting == next.waiting - PromptFrom(next.widgets, i + 1)
    requires PromptFrom(next.widgets, i + 1) != {} && r.waiting == {} ==> r.control == Finished(next.control)
    requires !(PromptFrom(next.widgets, i + 1) != {} && r.waiting == {}) ==> r.control == next.control
    ensures r.waiting == c.waiting - PromptFrom(c.widgets, i)
    ensures PromptFrom(c.widgets, i) != {} && r.waiting == {} ==> r.control == Finished(c.control)
    ensures !(PromptFrom(c.widgets, i) != {} && r.waiting == {}) ==> r.control == c.control
  {
    var prompt := c.widgets[i].lastResultWasFinal;
    assert PromptFrom(next.widgets, i + 1) == PromptFrom(c.widgets, i + 1);
    assert PromptFrom(c.widgets, i) == PromptFrom(c.widgets, i + 1) + if prompt then {i} else {};
  }

  /** The flags once recording stops: the finish timer armed and the interface disabled. */
  function Armed(k: Control): (r: Control)
    ensures !r.isRecording && r.timerArmed && !r.uiEnabled && r.inSession == k.inSession
  {
    k.(isRecording := false, timerArmed := true, uiEnabled := false)
  }

  /**
   * Stopping, while recording: the interface is disabled, the finish timer
   * armed, and every service widget stopped with the same phrase. If some
   * widget responded at once and none is left owing, the session is
   * finished straight away.
   */
  function StopRecording(c: Comparison, phrase: Option<string>): (r: Comparison)
    ensures !c.control.isRecording ==> r == c
    ensures c.control.isRecording ==>
      && |r.widgets| == |c.widgets|
      && (forall j :: 0 <= j < |c.widgets| ==> r.widgets[j] == ServiceWidget.StopRecording(c.widgets[j], phrase))
      && (forall j :: 0 <= j < |c.widgets| ==> r.widgets[j].comparisonPhrase == phrase)
      && r.waiting == c.waiting - PromptFrom(c.widgets, 0)
      && !r.control.isRecording
    ensures c.control.isRecording && PromptFrom(c.widgets, 0) != {} && r.waiting == {} ==>
      r.control == Finished(Armed(c.control))
    ensures c.control.isRecording && !(PromptFrom(c.widgets, 0) != {} && r.waiting == {}) ==>
      r.control == Armed(c.control)
  {
    if !c.control.isRecording then c
    else StopFrom(c.(control := Armed(c.control)), 0, phrase)
  }

  /** The record button: stop while recording, start otherwise. A disabled button cannot be clicked. */
  function OnRecordButtonClicked(c: Comparison, phrase: Option<string>): (r: Comparison)
    ensures !c.control.uiEnabled ==> r == c
    ensures c.control.uiEnabled && c.control.isRecording ==> r == StopRecording(c, phrase)
    ensures c.control.uiEnabled && !c.control.isRecording ==> r == StartRecording(c)
  {
    if !c.control.uiEnabled then c
    else if c.control.isRecording then StopRecording(c, phrase)
    else StartRecording(c)
  }

  // ---------------------------------------------------------------------
  // Events
  // ---------------------------------------------------------------------

  /**
   * What can happen: a click on the record button (with the phrase then
   * selected), a result, error or recording timeout reaching service
   * widget `i`, and the finish timer going off.
   */
  datatype Event =
    | Click(phrase: Option<string>)
    | WidgetResult(i: nat, result: SpeechToTextResult)
    | WidgetError(i: nat, text: string)
    | WidgetTimeout(i: nat, phrase: Option<string>)
    | TimerFired

  /**
   * A service widget's reaction: results and errors make a widget output
   * nothing but a last response, so any output is one.
   */
  function Deliver(c: Comparison, i: nat, w: ServiceWidget.Widget): (r: Comparison)
    requires i < |c.widgets|
    ensures w.outputs == c.widgets[i].outputs ==> r == c.(widgets := c.widgets[i := w])
    ensures w.outputs != c.widgets[i].outputs ==> r == OnLastResponse(c.(widgets := c.widgets[i := w]), i)
  {
    var updated := c.(widgets := c.widgets[i := w]);
    if w.outputs != c.widgets[i].outputs then OnLastResponse(updated, i) else updated
  }

  function Step(c: Comparison, e: Event): Comparison {
    match e
    case Click(phrase) => OnRecordButtonClicked(c, phrase)
    case WidgetResult(i, result) =>
      if i < |c.widgets| then Deliver(c, i, ServiceWidget.OnTextResult(c.widgets[i], result)) else c
    case WidgetError(i, text) =>
      if i < |c.widgets| then Deliver(c, i, ServiceWidget.OnSpeechToTextError(c.widgets[i], text)) else c
    case WidgetTimeout(i, phrase) =>
      if i < |c.widgets| then
        StopRecording(c.(widgets := c.widgets[i := ServiceWidget.OnRecordingTimeout(c.widgets[i])]), phrase)
      else c
    case TimerFired => if c.control.timerArmed then FinishComparisonSession(c) else c
  }

  function Run(c: Comparison, events: seq<Event>): Comparison
    decreases |events|
  {
    if |events| == 0 then c else Run(Step(c, events[0]), events[1..])
  }

  // ---------------------------------------------------------------------
  // Properties of sessions
  // ---------------------------------------------------------------------

  /**
   * The widget is always in exactly one phase, and while it records no
   * service widget waits for a last response, so none can finish the
   * session early.
   */
  ghost predicate Invariant(c: Comparison) {
    && (Idle(c.control) || Recording(c.control) || AwaitingResponses(c.control))
    && (Recording(c.control) ==> forall i :: 0 <= i < |c.widgets| ==> !c.widgets[i].waiting)
  }

  lemma ResponseKeepsInvariant(c: Comparison, i: nat, w: ServiceWidget.Widget)
    requires Invariant(c) && i < |c.widgets|
    requires Recording(c.control) ==> !w.waiting && w.outputs == c.widgets[i].outputs
    ensures Invariant(Deliver(c, i, w))
  {
    var r := Deliver(c, i, w);
    if Recording(c.control) {
      assert r.control == c.control;
      forall j | 0 <= j < |r.widgets| ensures !r.widgets[j].waiting {
        if j != i {
          assert r.widgets[j] == c.widgets[j];
        }
      }
    }
  }

  lemma StopKeepsInvariant(c: Comparison, phrase: Option<string>)
    requires Invariant(c)
    ensures Invariant(StopRecording(c, phrase))
  {
  }

  lemma StepKeepsInvariant(c: Comparison, e: Event)
    requires Invariant(c)
    ensures Invariant(Step(c, e))
  {
    match e
    case Click(phrase) =>
      if c.control.uiEnabled && c.control.isRecording {
        StopKeepsInvariant(c, phrase);
      }
    case WidgetResult(i, result) =>
      if i < |c.widgets| {
        ResponseKeepsInvariant(c, i, ServiceWidget.OnTextResult(c.widgets[i], result));
      }
    case WidgetError(i, text) =>
      if i < |c.widgets| {
        ResponseKeepsInvariant(c, i, ServiceWidget.OnSpeechToTextError(c.widgets[i], text));
      }
    case WidgetTimeout(i, phrase) =>
      if i < |c.widgets| {
        StopKeepsInvariant(c.(widgets := c.widgets[i := ServiceWidget.OnRecordingTimeout(c.widgets[i])]), phrase);
      }
    case TimerFired =>
  }

  /** From creation on, the widget is always in exactly one phase. */
  lemma {:induction false} RunKeepsInvariant(c: Comparison, events: seq<Event>)
    requires Invariant(c)
    ensures Invariant(Run(c, events))
    decreases |events|
  {
    if |events| > 0 {
      StepKeepsInvariant(c, events[0]);
      RunKeepsInvariant(Step(c, events[0]), events[1..]);
    }
  }

  /**
   * A recording timeout from any service widget stops the comparison, and
   * does nothing to the flags once it has stopped.
   */
  lemma TimeoutStopsRecording(c: Comparison, i: nat, phrase: Option<string>)
    requires Invariant(c) && i < |c.widgets|
    ensures !Step(c, WidgetTimeout(i, phrase)).control.isRecording
    ensures !c.control.isRecording ==> Step(c, WidgetTimeout(i, phrase)).control == c.control
  {
  }
}
