/**
 * The capture side of the time-based detection loop: how the source frame rate is
 * settled (with fallbacks), the pacing interval derived from it, and the stream
 * object that owns the latest-wins queue.
 */
module VideoSource {
  import opened Wrappers
  import FrameBuffer

  const DefaultFileFps: real := 30.0

  /**
   * `_determine_source_fps`: the rate the capture reports when it is above 1,
   * otherwise 30 for a file and 0 for a live source.
   */
  function DetermineSourceFps(reportedFps: real, isFileSource: bool): (fps: real)
    ensures reportedFps > 1.0 ==> fps == reportedFps
    ensures reportedFps <= 1.0 && isFileSource ==> fps == DefaultFileFps
    ensures reportedFps <= 1.0 && !isFileSource ==> fps == 0.0
  {
    if reportedFps > 1.0 then reportedFps
    else if isFileSource then DefaultFileFps
    else 0.0
  }

  /** `1.0 / source_fps` when the source is a file with a non-zero rate, else `None`. */
  function FrameInterval(isFileSource: bool, sourceFps: real): (r: Option<real>)
    ensures r.Some? <==> isFileSource && sourceFps != 0.0
    ensures r.Some? ==> r.value * sourceFps == 1.0
  {
    if isFileSource && sourceFps != 0.0 then Some(1.0 / sourceFps) else None
  }

  /**
   * A file source is always paced, by an interval strictly between 0 and 1 second;
   * a live source is never paced, whatever rate it reports.
   */
  lemma PacingOnlyForFiles(reportedFps: real, isFileSource: bool)
    ensures var interval := FrameInterval(isFileSource, DetermineSourceFps(reportedFps, isFileSource));
      && (isFileSource ==> interval.Some? && 0.0 < interval.value < 1.0)
      && (!isFileSource ==> interval.None?)
  {
    var fps := DetermineSourceFps(reportedFps, isFileSource);
    if isFileSource {
      var iv := FrameInterval(isFileSource, fps).value;
      assert fps > 1.0 && iv * fps == 1.0;
    }
  }

  class VideoStream<F> {
    const isFileSource: bool
    var sourceFps: real
    var frameInterval: Option<real>
    const queue: FrameBuffer.FrameQueue<F>

    /** The pacing fields agree with the settled rate, as every assignment keeps them. */
    ghost predicate Valid()
      reads this
    {
      && frameInterval == FrameInterval(isFileSource, sourceFps)
      && (isFileSource ==> sourceFps > 1.0)
    }

    /** `reportedFps` stands for `cap.get(CAP_PROP_FPS)`; `isFileSource` for the path test. */
    constructor(reportedFps: real, isFileSource: bool)
      ensures Valid() && fresh(queue) && queue.pending == None
      ensures this.isFileSource == isFileSource
      ensures sourceFps == DetermineSourceFps(reportedFps, isFileSource)
    {
      this.isFileSource := isFileSource;
      var fps := DetermineSourceFps(reportedFps, isFileSource);
      sourceFps := fps;
      if isFileSource && fps != 0.0 {
        frameInterval := Some(1.0 / fps);
      } else {
        frameInterval := None;
      }
      queue := new FrameBuffer.FrameQueue();
    }

    /** After a failed read the capture is reopened and the rate settled again. */
    method Reconnect(reportedFps: real)
      requires Valid()
      modifies this
      ensures Valid()
      ensures sourceFps == DetermineSourceFps(reportedFps, isFileSource)
      ensures unchanged(queue)
    {
      sourceFps := DetermineSourceFps(reportedFps, isFileSource);
      if isFileSource && sourceFps != 0.0 {
        frameInterval := Some(1.0 / sourceFps);
      } else {
        frameInterval := None;
      }
    }

    /** A frame grabbed by the capture thread replaces whatever is still unread. */
    method Deliver(frame: F)
      modifies queue
      ensures queue.pending == Some(frame)
    {
      queue.Put(frame);
    }

    /** `read()`: the latest unread frame, or `None`. */
    method Read() returns (r: Option<F>)
      modifies queue
      ensures r == old(queue.pending) && queue.pending == None
    {
      r := queue.Read();
    }
  }
}
