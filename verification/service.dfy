/**
 * The base speech-to-text service: the recording flag every service keeps,
 * the three multicast delegates listeners register with, and the notices a
 * service sends through them.
 */
module SpeechService {
  import opened SpeechResults

  // ---------------------------------------------------------------------
  // Delegates: an invocation list, empty when the delegate is null
  // ---------------------------------------------------------------------

  /** `d += action`: the action is invoked after every earlier one. */
  function Register<T>(list: seq<T>, action: T): (r: seq<T>)
    ensures |r| == |list| + 1 && r[..|list|] == list && r[|list|] == action
  {
    list + [action]
  }

  /** The position of the last occurrence of `action`, or -1. */
  function LastIndexOf<T(==)>(list: seq<T>, action: T): (i: int)
    ensures -1 <= i < |list|
    ensures i >= 0 ==> list[i] == action && action !in list[i + 1..]
    ensures i < 0 <==> action !in list
  {
    if |list| == 0 then -1
    else if list[|list| - 1] == action then |list| - 1
    else LastIndexOf(list[..|list| - 1], action)
  }

  /**
   * `d -= action`: removes the last occurrence of the action, and leaves a
   * list without it unchanged.
   */
  function Unregister<T(==)>(list: seq<T>, action: T): (r: seq<T>)
    ensures action !in list ==> r == list
    ensures action in list ==> |r| + 1 == |list| && multiset(r) + multiset{action} == multiset(list)
    ensures action in list ==>
      exists k :: 0 <= k < |list| && list[k] == action && action !in list[k + 1..] && r == list[..k] + list[k + 1..]
  {
    var i := LastIndexOf(list, action);
    if i < 0 then list
    else
      assert list == list[..i] + [list[i]] + list[i + 1..];
      list[..i] + list[i + 1..]
  }

  /** Registering and then unregistering the same action restores the list. */
  lemma RegisterThenUnregister<T>(list: seq<T>, action: T)
    ensures Unregister(Register(list, action), action) == list
  {
    var r := Register(list, action);
    assert r[|list|] == action && r[|list| + 1..] == [];
    assert LastIndexOf(r, action) == |list|;
    assert r[..|list|] == list;
  }

  // ---------------------------------------------------------------------
  // The recording flag
  // ---------------------------------------------------------------------

  /** The coroutines a service may have running. */
  datatype Coroutine =
    | RecordAudio
    | StreamAudioAndListenForResponses
    | ProcessResponseJSONs
    | FinishSession

  /** What a service tells its listeners. */
  datatype Notice =
    | TextResult(result: SpeechToTextResult)
    | Error(text: string)
    | RecordingTimeout

  datatype Service = Service(isRecording: bool, running: seq<Coroutine>)

  const Idle := Service(false, [])

  /**
   * Starting succeeds exactly when the service is not recording; success
   * sets the flag and stops every coroutine of the previous session, and
   * failure changes nothing.
   */
  function StartRecording(s: Service): (r: (Service, bool))
    ensures r.1 <==> !s.isRecording
    ensures r.1 ==> r.0.isRecording && r.0.running == []
    ensures !r.1 ==> r.0 == s
  {
    if !s.isRecording then (Service(true, []), true) else (s, false)
  }

  /**
   * Stopping succeeds exactly when the service is recording; success clears
   * the flag and nothing else, and failure changes nothing.
   */
  function StopRecording(s: Service): (r: (Service, bool))
    ensures r.1 <==> s.isRecording
    ensures r.1 ==> !r.0.isRecording && r.0.running == s.running
    ensures !r.1 ==> r.0 == s
  {
    if s.isRecording then (s.(isRecording := false), true) else (s, false)
  }

  /**
   * The microphone timed out: the flag is cleared whatever its value, the
   * running coroutines are left alone, and the timeout listeners are told.
   */
  function OnRecordingTimeout(s: Service): (r: (Service, seq<Notice>))
    ensures !r.0.isRecording && r.0.running == s.running
    ensures r.1 == [RecordingTimeout]
  {
    (s.(isRecording := false), [RecordingTimeout])
  }

  /**
   * Start and stop alternate: from any state exactly one of them succeeds,
   * and after a successful one the same call fails while the other succeeds.
   */
  lemma StartStopAlternate(s: Service)
    ensures StartRecording(s).1 != StopRecording(s).1
    ensures StartRecording(s).1 ==> !StartRecording(StartRecording(s).0).1 && StopRecording(StartRecording(s).0).1
    ensures StopRecording(s).1 ==> !StopRecording(StopRecording(s).0).1 && StartRecording(StopRecording(s).0).1
  {
  }

  /** After a recording timeout, stopping fails: a stop arriving after the timeout does nothing. */
  lemma StopAfterTimeoutFails(s: Service)
    ensures !StopRecording(OnRecordingTimeout(s).0).1
    ensures StartRecording(OnRecordingTimeout(s).0).1
  {
  }
}
