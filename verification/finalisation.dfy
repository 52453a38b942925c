/**
 * The end of a session, shared by the Google, Watson and Windows services:
 * once recording has stopped (and, for the streaming services, every queued
 * chunk has been sent), wait up to a timeout for a final result; if the last
 * result is still interim then, make it final and deliver it once more.
 */
module SessionEnd {
  import opened SpeechResults
  import opened SpeechService

  /**
   * Forcing finality: an interim last result becomes final, keeping its
   * alternatives, and is delivered again; a final one is left alone and
   * nothing is delivered.
   */
  function Finalise(lastResult: SpeechToTextResult): (r: (SpeechToTextResult, seq<SpeechToTextResult>))
    ensures r.0.isFinal && r.0.textAlternatives == lastResult.textAlternatives
    ensures lastResult.isFinal ==> r.0 == lastResult && r.1 == []
    ensures !lastResult.isFinal ==> r.1 == [r.0]
  {
    if !lastResult.isFinal then
      var forced := lastResult.WithFinal(true);
      (forced, [forced])
    else (lastResult, [])
  }

  /** What finalising tells the listeners: the forced result, if there is one. */
  function ForcedNotices(lastResult: SpeechToTextResult): (n: seq<Notice>)
    ensures lastResult.isFinal ==> n == []
    ensures !lastResult.isFinal ==> n == [TextResult(Finalise(lastResult).0)]
  {
    if lastResult.isFinal then [] else [TextResult(lastResult.WithFinal(true))]
  }

  /** The waiting loop's condition: no final result yet, and time left. */
  predicate StillWaiting(lastResult: SpeechToTextResult, elapsed: real, timeout: real) {
    !lastResult.isFinal && elapsed < timeout
  }

  /**
   * One frame of the wait: the time since the previous frame, and the
   * results the service's callbacks received during it, in order.
   */
  datatype WaitFrame = WaitFrame(deltaTime: real, arrivals: seq<SpeechToTextResult>)

  /** Every result received over some frames, in order. */
  function Arrivals(frames: seq<WaitFrame>): seq<SpeechToTextResult> {
    if |frames| == 0 then [] else frames[0].arrivals + Arrivals(frames[1..])
  }

  /** The last result after some arrivals: the latest of them, or the previous one. */
  function Latest(lastResult: SpeechToTextResult, arrivals: seq<SpeechToTextResult>): SpeechToTextResult {
    if |arrivals| == 0 then lastResult else arrivals[|arrivals| - 1]
  }

  /**
   * How a wait went: the last result, everything delivered to the
   * listeners, how many frames it took, whether it ended, and whether the
   * last result had to be forced final.
   */
  datatype WaitOutcome = WaitOutcome(
    lastResult: SpeechToTextResult,
    delivered: seq<SpeechToTextResult>,
    framesUsed: nat,
    ended: bool,
    forced: bool)

  lemma LatestAppend(lastResult: SpeechToTextResult, a: seq<SpeechToTextResult>, b: seq<SpeechToTextResult>)
    ensures Latest(Latest(lastResult, a), b) == Latest(lastResult, a + b)
  {
  }

  lemma ArrivalsPrefix(frames: seq<WaitFrame>, k: nat)
    requires 0 < k <= |frames|
    ensures Arrivals(frames[..k]) == frames[0].arrivals + Arrivals(frames[1..][..k - 1])
  {
    assert frames[..k][1..] == frames[1..][..k - 1];
  }

  /**
   * The wait, entered with the loop's first check: each frame delivers the
   * results that arrived (each becomes the last result), then the time is
   * added and the condition checked again. When the condition fails, the
   * last result is finalised.
   */
  function WaitForFinal(lastResult: SpeechToTextResult, elapsed: real, timeout: real, frames: seq<WaitFrame>)
    : (r: WaitOutcome)
    decreases |frames|
  {
    if !StillWaiting(lastResult, elapsed, timeout) then
      var (final, redelivered) := Finalise(lastResult);
      WaitOutcome(final, redelivered, 0, true, !lastResult.isFinal)
    else if |frames| == 0 then
      WaitOutcome(lastResult, [], 0, false, false)
    else
      var frame := frames[0];
      var rest := WaitForFinal(Latest(lastResult, frame.arrivals), elapsed + frame.deltaTime, timeout, frames[1..]);
      WaitOutcome(rest.lastResult, frame.arrivals + rest.delivered, rest.framesUsed + 1, rest.ended, rest.forced)
  }

  /**
   * What a wait over `frames` from `lastResult` may end with: the results
   * delivered are exactly those that arrived in the frames used, followed,
   * when forced, by one final copy of the last of them; the session's last
   * result is then final; a wait that has not ended has used every frame
   * and forced nothing.
   */
  ghost predicate DeliversArrivals(lastResult: SpeechToTextResult, frames: seq<WaitFrame>, r: WaitOutcome) {
    && r.framesUsed <= |frames|
    && (r.ended ==> r.lastResult.isFinal)
    && (r.forced ==> r.ended)
    && (!r.ended ==> r.framesUsed == |frames| && !r.forced)
    && var latest := Latest(lastResult, Arrivals(frames[..r.framesUsed]));
       && (r.forced <==> r.ended && !latest.isFinal)
       && (r.forced ==> r.lastResult == latest.WithFinal(true))
       && (!r.forced ==> r.lastResult == latest)
       && r.delivered == Arrivals(frames[..r.framesUsed]) + (if r.forced then [r.lastResult] else [])
  }

  /** The wait delivers what arrived, then at most one forced copy of the last result. */
  lemma {:induction false} WaitDeliversArrivals(lastResult: SpeechToTextResult, elapsed: real, timeout: real,
                                                frames: seq<WaitFrame>)
    ensures DeliversArrivals(lastResult, frames, WaitForFinal(lastResult, elapsed, timeout, frames))
    decreases |frames|
  {
    assert frames[..0] == [];
    if StillWaiting(lastResult, elapsed, timeout) && |frames| > 0 {
      var frame := frames[0];
      var latest := Latest(lastResult, frame.arrivals);
      WaitDeliversArrivals(latest, elapsed + frame.deltaTime, timeout, frames[1..]);
      var rest := WaitForFinal(latest, elapsed + frame.deltaTime, timeout, frames[1..]);
      ArrivalsPrefix(frames, rest.framesUsed + 1);
      LatestAppend(lastResult, frame.arrivals, Arrivals(frames[1..][..rest.framesUsed]));
    }
  }

  /** The total time of some frames. */
  function Duration(frames: seq<WaitFrame>): real {
    if |frames| == 0 then 0.0 else frames[0].deltaTime + Duration(frames[1..])
  }

  /**
   * The wait ends at the latest when the timeout has passed: given frames
   * whose times add up to the timeout, it ends within them.
   */
  lemma {:induction false} WaitEndsByTimeout(lastResult: SpeechToTextResult, elapsed: real, timeout: real,
                                             frames: seq<WaitFrame>)
    requires elapsed + Duration(frames) >= timeout
    ensures WaitForFinal(lastResult, elapsed, timeout, frames).ended
    decreases |frames|
  {
    if StillWaiting(lastResult, elapsed, timeout) && |frames| > 0 {
      var frame := frames[0];
      WaitEndsByTimeout(Latest(lastResult, frame.arrivals), elapsed + frame.deltaTime, timeout, frames[1..]);
    }
  }

  /** A final result arriving during the wait ends it in that frame, with no forced delivery. */
  lemma FinalArrivalEndsWait(lastResult: SpeechToTextResult, elapsed: real, timeout: real, frames: seq<WaitFrame>)
    requires StillWaiting(lastResult, elapsed, timeout)
    requires |frames| > 0 && |frames[0].arrivals| > 0 && frames[0].arrivals[|frames[0].arrivals| - 1].isFinal
    ensures WaitForFinal(lastResult, elapsed, timeout, frames).ended
    ensures !WaitForFinal(lastResult, elapsed, timeout, frames).forced
    ensures WaitForFinal(lastResult, elapsed, timeout, frames).framesUsed == 1
  {
  }
}
