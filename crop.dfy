/**
 * The centre crop of `capturePhoto`: the source rectangle of the video
 * frame that is copied onto the capture canvas so that every captured
 * frame has the 4:3 target aspect ratio. Coordinates are exact reals; the
 * browser's floating point and the truncation of the canvas size are not
 * modelled.
 */
module Crop {
  import opened Opt

  const TargetAspectRatio: real := 4.0 / 3.0
  /** `HTMLMediaElement.HAVE_ENOUGH_DATA` */
  const HaveEnoughData: int := 4

  /** The rectangle passed to `drawImage` as its source. */
  datatype Rect = Rect(x: real, y: real, width: real, height: real)

  /** What `capturePhoto` reads from the video element. */
  datatype Video = Video(readyState: int, videoWidth: nat, videoHeight: nat)

  predicate FourByThree(r: Rect) { r.width * 3.0 == r.height * 4.0 }

  predicate Inside(r: Rect, w: real, h: real) {
    0.0 <= r.x && r.x + r.width <= w && 0.0 <= r.y && r.y + r.height <= h
  }

  /** Centred: equal margins on both sides, horizontally and vertically. */
  predicate Centred(r: Rect, w: real, h: real) {
    r.x * 2.0 + r.width == w && r.y * 2.0 + r.height == h
  }

  /**
   * The crop as the code computes it: a portrait frame (width below height)
   * keeps its width; any other frame keeps its height.
   */
  function SourceRect(w: nat, h: nat): (r: Rect)
    ensures FourByThree(r) && Centred(r, w as real, h as real)
    ensures r.width == w as real || r.height == h as real
  {
    var vw, vh := w as real, h as real;
    if w < h then
      var sh := vw / TargetAspectRatio;
      Rect(0.0, (vh - sh) / 2.0, vw, sh)
    else
      var sw := vh * TargetAspectRatio;
      Rect((vw - sw) / 2.0, 0.0, sw, vh)
  }

  /** Whatever the frame, the crop has ratio 4:3 and is centred on it. */
  lemma SourceRectShape(w: nat, h: nat)
    ensures FourByThree(SourceRect(w, h))
    ensures Centred(SourceRect(w, h), w as real, h as real)
  {
  }

  /** A portrait frame keeps its full width and is cropped top and bottom, inside the frame. */
  lemma PortraitCrop(w: nat, h: nat)
    requires w < h
    ensures var r := SourceRect(w, h);
      r.x == 0.0 && r.width == w as real && r.height == w as real * 3.0 / 4.0 &&
      r.y == (h as real - r.height) / 2.0 && Inside(r, w as real, h as real)
  {
  }

  /** A frame at least as wide as 4:3 keeps its full height and is cropped left and right, inside the frame. */
  lemma WideCrop(w: nat, h: nat)
    requires w * 3 >= h * 4
    ensures var r := SourceRect(w, h);
      r.y == 0.0 && r.height == h as real && r.width == h as real * 4.0 / 3.0 &&
      Inside(r, w as real, h as real)
  {
  }

  /**
   * Every frame at least as wide as it is tall takes the landscape branch:
   * it keeps y = 0 and its full height, and the width becomes h·4/3.
   */
  lemma LandscapeCrop(w: nat, h: nat)
    requires h <= w
    ensures var r := SourceRect(w, h);
      r.y == 0.0 && r.height == h as real && r.width == h as real * 4.0 / 3.0 &&
      r.x == (w as real - r.width) / 2.0
  {
  }

  /**
   * Every frame from square up to (but not including) 4:3, such as a 5:4
   * frame, gets a rectangle that starts left of the frame and leaves it.
   */
  lemma BandFrameOverruns(w: nat, h: nat)
    requires h <= w && w * 3 < h * 4
    ensures SourceRect(w, h).x < 0.0
    ensures !Inside(SourceRect(w, h), w as real, h as real)
  {
  }

  /** Cropping a frame that is already 4:3 gives back the whole frame. */
  lemma FourByThreeFrameUnchanged(w: nat, h: nat)
    requires w * 3 == h * 4
    ensures SourceRect(w, h) == Rect(0.0, 0.0, w as real, h as real)
  {
  }

  /**
   * Between square and 4:3 the code takes the landscape branch and widens
   * instead of cropping: for a 480 x 480 frame the rectangle starts at
   * x = -80 and is 640 wide, reaching past both edges of the frame.
   */
  lemma SquareFrameOverruns()
    ensures SourceRect(480, 480) == Rect(-80.0, 0.0, 640.0, 480.0)
    ensures !Inside(SourceRect(480, 480), 480.0, 480.0)
  {
  }

  /**
   * The centre crop the code evidently intends: keep the width when the
   * frame is narrower than 4:3, keep the height otherwise.
   */
  function IntendedRect(w: nat, h: nat): Rect {
    var vw, vh := w as real, h as real;
    if w * 3 < h * 4 then
      var sh := vw / TargetAspectRatio;
      Rect(0.0, (vh - sh) / 2.0, vw, sh)
    else
      var sw := vh * TargetAspectRatio;
      Rect((vw - sw) / 2.0, 0.0, sw, vh)
  }

  /** The intended crop is 4:3, centred and inside every frame. */
  lemma IntendedRectFits(w: nat, h: nat)
    ensures var r := IntendedRect(w, h);
      FourByThree(r) && Centred(r, w as real, h as real) && Inside(r, w as real, h as real)
  {
  }

  /** The intended crop is the largest 4:3 rectangle inside the frame. */
  lemma IntendedRectIsLargest(w: nat, h: nat, other: Rect)
    requires FourByThree(other) && Inside(other, w as real, h as real)
    ensures other.width <= IntendedRect(w, h).width
  {
  }

  /** The two crops differ only for frames between square and 4:3. */
  lemma IntendedAgreesOutsideBand(w: nat, h: nat)
    requires w < h || w * 3 >= h * 4
    ensures IntendedRect(w, h) == SourceRect(w, h)
  {
  }

  /**
   * `capturePhoto`: no image unless the video element, the canvas and its
   * 2D context exist and the video has enough data; otherwise the frame is
   * cropped as the code crops it and copied.
   */
  method CapturePhoto(video: Option<Video>, hasCanvas: bool, hasContext: bool) returns (shot: Option<Rect>)
    ensures shot.Some? <==> video.Some? && hasCanvas && video.value.readyState == HaveEnoughData && hasContext
    ensures shot.Some? ==> shot.value == SourceRect(video.value.videoWidth, video.value.videoHeight)
    ensures shot.Some? ==>
      var vw, vh := video.value.videoWidth, video.value.videoHeight;
      var w, h := vw as real, vh as real;
      FourByThree(shot.value) && Centred(shot.value, w, h) &&
      (shot.value.width == w || shot.value.height == h) &&
      (vw < vh || vw * 3 >= vh * 4 ==> Inside(shot.value, w, h))
  {
    if video.Some? && hasCanvas && video.value.readyState == HaveEnoughData {
      if hasContext {
        var videoWidth := video.value.videoWidth as real;
        var videoHeight := video.value.videoHeight as real;

        var sourceX := 0.0;
        var sourceY := 0.0;
        var sourceWidth := videoWidth;
        var sourceHeight := videoHeight;

        if videoWidth < videoHeight {
          sourceHeight := videoWidth / TargetAspectRatio;
          sourceY := (videoHeight - sourceHeight) / 2.0;
        } else {
          sourceWidth := videoHeight * TargetAspectRatio;
          sourceX := (videoWidth - sourceWidth) / 2.0;
        }
        return Some(Rect(sourceX, sourceY, sourceWidth, sourceHeight));
      }
    }
    return None;
  }
}
