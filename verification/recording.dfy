/**
 * The audio recording manager: cutting a chunk out of the recorded clip,
 * and the flag that tells a microphone timeout apart from an explicit stop.
 */
module AudioRecording {
  import opened Wrappers

  // ---------------------------------------------------------------------
  // Chunks of the recorded clip
  // ---------------------------------------------------------------------

  /** A clip: its channel count, its sampling frequency and its samples, one per frame. */
  datatype AudioClip = AudioClip(channels: nat, frequency: nat, samples: seq<real>)

  /** The clip's length in seconds. */
  function ClipLength(clip: AudioClip): (seconds: real)
    requires clip.frequency > 0
    ensures seconds >= 0.0 && clip.frequency as real * seconds == |clip.samples| as real
  {
    |clip.samples| as real / clip.frequency as real
  }

  function Floor(x: real): int {
    x.Floor
  }

  function Ceil(x: real): int {
    -((-x).Floor)
  }

  /** The sample window of a chunk: its first sample and its sample count. */
  datatype Window = Window(start: nat, count: nat)

  /** A negative offset is read as 0. */
  function ClampedOffset(offsetInSeconds: real): (offset: real)
    ensures offset >= 0.0 && offset >= offsetInSeconds
    ensures offsetInSeconds >= 0.0 ==> offset == offsetInSeconds
  {
    if offsetInSeconds < 0.0 then 0.0 else offsetInSeconds
  }

  /** A length running past the end of the clip is cut back to the end. */
  function ClampedLength(clip: AudioClip, offset: real, chunkLengthInSeconds: real): (length: real)
    requires clip.frequency > 0
    ensures length <= chunkLengthInSeconds
    ensures offset + length <= ClipLength(clip)
    ensures offset + chunkLengthInSeconds <= ClipLength(clip) ==> length == chunkLengthInSeconds
    ensures offset <= ClipLength(clip) && chunkLengthInSeconds >= 0.0 ==> length >= 0.0
  {
    if offset + chunkLengthInSeconds > ClipLength(clip) then ClipLength(clip) - offset else chunkLengthInSeconds
  }

  /**
   * Argument validation and clamping: no chunk for a non-positive length or
   * an offset at or past the end; otherwise the window starts at the sample
   * under the clamped offset, has enough samples to cover the clamped
   * length, and lies inside the clip.
   */
  function ChunkWindow(clip: AudioClip, offsetInSeconds: real, chunkLengthInSeconds: real): (w: Option<Window>)
    requires clip.frequency > 0
    ensures w.None? <==> chunkLengthInSeconds <= 0.0 || offsetInSeconds >= ClipLength(clip)
    ensures w.Some? ==> w.value.start + w.value.count <= |clip.samples|
  {
    if chunkLengthInSeconds <= 0.0 || offsetInSeconds >= ClipLength(clip) then None
    else
      var offset := ClampedOffset(offsetInSeconds);
      Some(ClampedWindow(clip, offset, ClampedLength(clip, offset, chunkLengthInSeconds)))
  }

  /** The samples under `offset` seconds for `length` seconds, rounded outwards. */
  function ClampedWindow(clip: AudioClip, offset: real, length: real): (w: Window)
    requires clip.frequency > 0
    requires 0.0 <= offset && 0.0 <= length && offset + length <= ClipLength(clip)
    ensures w.start + w.count <= |clip.samples|
    ensures w.start == Floor(clip.frequency as real * offset) && w.count == Ceil(clip.frequency as real * length)
  {
    var f := clip.frequency as real;
    WindowFits(clip, offset, length);
    Window(Floor(f * offset), Ceil(f * length))
  }

  /** The window's first sample is the one under the clamped offset. */
  lemma ChunkStartsAtOffset(clip: AudioClip, offsetInSeconds: real, chunkLengthInSeconds: real)
    requires clip.frequency > 0
    requires chunkLengthInSeconds > 0.0 && offsetInSeconds < ClipLength(clip)
    ensures
      var w := ChunkWindow(clip, offsetInSeconds, chunkLengthInSeconds).value;
      var f := clip.frequency as real;
      var offset := if offsetInSeconds < 0.0 then 0.0 else offsetInSeconds;
      w.start as real <= f * offset < w.start as real + 1.0
  {
    FloorBounds(clip.frequency as real * ClampedOffset(offsetInSeconds));
  }

  /**
   * The window covers the requested length with less than one sample to
   * spare, and exactly when the request fits inside the clip.
   */
  lemma ChunkCoversLength(clip: AudioClip, offsetInSeconds: real, chunkLengthInSeconds: real)
    requires clip.frequency > 0
    requires chunkLengthInSeconds > 0.0 && offsetInSeconds < ClipLength(clip)
    ensures
      var w := ChunkWindow(clip, offsetInSeconds, chunkLengthInSeconds).value;
      var f := clip.frequency as real;
      && w.count as real < f * chunkLengthInSeconds + 1.0
      && (ClampedOffset(offsetInSeconds) + chunkLengthInSeconds <= ClipLength(clip) ==>
            f * chunkLengthInSeconds <= w.count as real)
  {
    var offset := ClampedOffset(offsetInSeconds);
    var length := ClampedLength(clip, offset, chunkLengthInSeconds);
    var f := clip.frequency as real;
    var w := ChunkWindow(clip, offsetInSeconds, chunkLengthInSeconds).value;
    assert w == ClampedWindow(clip, offset, length);
    CountBelowRequest(f, length, chunkLengthInSeconds, w.count);
    if offset + chunkLengthInSeconds <= ClipLength(clip) {
      assert length == chunkLengthInSeconds;
      CeilBounds(f * length);
    }
  }

  /** A count rounded up from a clamped length exceeds the request by less than one sample. */
  lemma CountBelowRequest(f: real, length: real, request: real, count: int)
    requires f > 0.0 && length <= request && count == Ceil(f * length)
    ensures count as real < f * request + 1.0
  {
    CeilBounds(f * length);
    ScaleMonotone(f, length, request);
  }

  /** A request running past the end gets a window that ends at the clip's last sample. */
  lemma ChunkReachesEnd(clip: AudioClip, offsetInSeconds: real, chunkLengthInSeconds: real)
    requires clip.frequency > 0
    requires chunkLengthInSeconds > 0.0 && offsetInSeconds < ClipLength(clip)
    requires ClampedOffset(offsetInSeconds) + chunkLengthInSeconds > ClipLength(clip)
    ensures
      var w := ChunkWindow(clip, offsetInSeconds, chunkLengthInSeconds).value;
      w.start + w.count == |clip.samples|
  {
    TruncatedWindowReachesEnd(clip, ClampedOffset(offsetInSeconds));
  }

  lemma FloorBounds(x: real)
    ensures Floor(x) as real <= x < Floor(x) as real + 1.0
  {
  }

  lemma CeilBounds(x: real)
    ensures x <= Ceil(x) as real < x + 1.0
  {
  }

  lemma ScaleMonotone(f: real, x: real, y: real)
    requires f > 0.0 && x <= y
    ensures f * x <= f * y
  {
  }

  /** The clamped window lies inside the clip. */
  lemma WindowFits(clip: AudioClip, offset: real, length: real)
    requires clip.frequency > 0
    requires 0.0 <= offset && 0.0 <= length && offset + length <= ClipLength(clip)
    ensures var f := clip.frequency as real;
      && 0 <= Floor(f * offset) && 0 <= Ceil(f * length)
      && Floor(f * offset) + Ceil(f * length) <= |clip.samples|
  {
    var f := clip.frequency as real;
    var n := |clip.samples| as real;
    assert f * ClipLength(clip) == n;
    assert f * (offset + length) <= f * ClipLength(clip);
    assert f * offset >= 0.0 && f * length >= 0.0;
  }

  /** A length cut back to the end gives a window ending at the clip's last sample. */
  lemma TruncatedWindowReachesEnd(clip: AudioClip, offset: real)
    requires clip.frequency > 0
    ensures var f := clip.frequency as real;
      Floor(f * offset) + Ceil(f * (ClipLength(clip) - offset)) == |clip.samples|
  {
    var f := clip.frequency as real;
    var n := |clip.samples|;
    assert f * ClipLength(clip) == n as real;
    assert f * (ClipLength(clip) - offset) == n as real - f * offset;
    var a := Floor(f * offset);
    assert -(n as real - f * offset) == f * offset - n as real;
    assert (f * offset - n as real).Floor == a - n;
  }

  /**
   * The chunk: a new clip with the recording's channel count and frequency
   * holding the window's samples.
   */
  function GetChunkOfRecordedAudio(clip: AudioClip, offsetInSeconds: real, chunkLengthInSeconds: real)
    : (chunk: Option<AudioClip>)
    requires clip.frequency > 0
    ensures chunk.None? <==> chunkLengthInSeconds <= 0.0 || offsetInSeconds >= ClipLength(clip)
    ensures chunk.Some? ==> chunk.value.frequency == clip.frequency && chunk.value.channels == clip.channels
    ensures chunk.Some? ==>
      var w := ChunkWindow(clip, offsetInSeconds, chunkLengthInSeconds).value;
      chunk.value.samples == clip.samples[w.start..w.start + w.count]
  {
    match ChunkWindow(clip, offsetInSeconds, chunkLengthInSeconds)
    case None => None
    case Some(w) => Some(AudioClip(clip.channels, clip.frequency, clip.samples[w.start..w.start + w.count]))
  }

  // ---------------------------------------------------------------------
  // Timeout versus explicit stop
  // ---------------------------------------------------------------------

  /**
   * The microphone's state as the manager sees it: whether it is recording,
   * whether the current session was ended by an explicit stop, and how many
   * timeout watchers are waiting for the microphone to go quiet.
   */
  datatype Recorder = Recorder(micRecording: bool, forcedStop: bool, watchers: nat)

  const Quiet := Recorder(false, false, 0)

  /** Starting does nothing while recording; otherwise it clears the flag and starts one more watcher. */
  function StartRecording(r: Recorder): (s: Recorder)
    ensures r.micRecording ==> s == r
    ensures !r.micRecording ==> s.micRecording && !s.forcedStop && s.watchers == r.watchers + 1
  {
    if !r.micRecording then Recorder(true, false, r.watchers + 1) else r
  }

  /** An explicit stop, while recording, ends the recording and marks it as forced. */
  function StopRecording(r: Recorder): (s: Recorder)
    ensures r.micRecording ==> !s.micRecording && s.forcedStop && s.watchers == r.watchers
    ensures !r.micRecording ==> s == r
  {
    if r.micRecording then r.(micRecording := false, forcedStop := true) else r
  }

  /** The device reached the maximum recording length and stopped on its own. */
  function DeviceStopped(r: Recorder): (s: Recorder)
    ensures !s.micRecording && s.forcedStop == r.forcedStop && s.watchers == r.watchers
  {
    r.(micRecording := false)
  }

  /**
   * A frame: every watcher sees whether the microphone is still recording;
   * if it is not, each one ends, firing the timeout callback unless the
   * recording was stopped explicitly.
   */
  function Frame(r: Recorder): (s: (Recorder, nat))
    ensures r.micRecording ==> s == (r, 0)
    ensures !r.micRecording ==> s.0.watchers == 0 && s.0.micRecording == r.micRecording && s.0.forcedStop == r.forcedStop
    ensures s.1 > 0 <==> !r.micRecording && !r.forcedStop && r.watchers > 0
    ensures s.1 <= r.watchers
  {
    if r.micRecording then (r, 0)
    else (r.(watchers := 0), if r.forcedStop then 0 else r.watchers)
  }

  /** A recording ended by an explicit stop never reports a timeout. */
  lemma ExplicitStopNoTimeout(r: Recorder)
    requires !r.micRecording
    ensures var started := Frame(StartRecording(r).(watchers := 1)).0;
      Frame(StopRecording(started)).1 == 0
  {
  }

  /** A recording the device ended by itself reports exactly one timeout to its one watcher. */
  lemma DeviceStopOneTimeout(r: Recorder)
    requires !r.micRecording && r.watchers == 0
    ensures Frame(DeviceStopped(StartRecording(r))).1 == 1
    ensures Frame(DeviceStopped(StartRecording(r))).0.watchers == 0
  {
  }

  /**
   * Stopping and restarting before a frame passes leaves the old watcher
   * alive, so a later device timeout is reported twice.
   */
  lemma RestartWithinFrameReportsTwice()
    ensures var r := DeviceStopped(StartRecording(StopRecording(StartRecording(Quiet))));
      Frame(r).1 == 2
  {
  }
}
