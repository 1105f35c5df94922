/**
 * Geometry of the composite photo strip built by `handleMergeAndProcess`:
 * the canvas size, where each captured frame is drawn and where the two
 * caption lines of the footer are anchored. Pixel work (fills, image
 * drawing, text rendering, JPEG encoding) is outside the model; only the
 * numbers passed to the canvas are.
 */
module Strip {
  import opened Opt

  /** White border around and between frames in the final image, in pixels. */
  const BorderSize: nat := 10
  /** Height of the caption footer below the last frame, in pixels. */
  const FooterHeight: nat := 120
  /** Vertical offsets of the title and the date line from the footer anchor. */
  const TitleOffset: int := -10
  const DateOffset: int := 30

  /** A captured frame once loaded as an image: its data URL and natural size. */
  datatype Frame = Frame(dataUrl: string, width: nat, height: nat)

  /** Top-left corner at which a frame is drawn. */
  datatype Placement = Placement(x: int, y: int)

  /** Every number the compositor hands to the canvas. */
  datatype StripLayout = StripLayout(
    width: int,
    height: int,
    frames: seq<Placement>,
    footerY: int,
    captionX: real,
    titleY: int,
    dateY: int)

  function CanvasWidth(w: nat): int { w + BorderSize * 2 }

  /** The canvas height as the code computes it, trailing border included. */
  function CanvasHeight(h: nat, n: nat): int {
    h * n + BorderSize * (n + 1) + FooterHeight + BorderSize
  }

  /** Closed form of the y at which frame k is drawn. */
  function FrameTop(h: nat, k: nat): int { BorderSize + k * (h + BorderSize) }

  /** The y reached after the last of n frames and the border below it. */
  function FramesEnd(h: nat, n: nat): int { (n + 1) * BorderSize + n * h }

  /** The strip for n frames of size w x h, in closed form. */
  function StripFor(w: nat, h: nat, n: nat): StripLayout {
    var footerY := FramesEnd(h, n) + FooterHeight / 2;
    StripLayout(
      CanvasWidth(w),
      CanvasHeight(h, n),
      seq(n, k requires 0 <= k < n => Placement(BorderSize, FrameTop(h, k))),
      footerY,
      CanvasWidth(w) as real / 2.0,
      footerY + TitleOffset,
      footerY + DateOffset)
  }

  /** Each frame starts one frame height and one border below the previous one. */
  lemma FrameTopStep(h: nat, k: nat)
    ensures FrameTop(h, k + 1) == FrameTop(h, k) + h + BorderSize
  {
  }

  /**
   * The canvas work of `handleMergeAndProcess` once its images are loaded:
   * nothing for an empty list; otherwise the size is taken from the first
   * image and the draw offsets are accumulated frame by frame.
   */
  method Compose(images: seq<Frame>) returns (r: Option<StripLayout>)
    ensures r.None? <==> images == []
    ensures images != [] ==> r == Some(StripFor(images[0].width, images[0].height, |images|))
  {
    if |images| == 0 {
      return None;
    }
    var width, height := images[0].width, images[0].height;
    var totalImageHeight := height * |images|;
    var totalBorderHeight := BorderSize * (|images| + 1);
    var canvasWidth := width + BorderSize * 2;
    var canvasHeight := totalImageHeight + totalBorderHeight + FooterHeight + BorderSize;

    var y: int := BorderSize;
    var frames: seq<Placement> := [];
    var i := 0;
    while i < |images|
      invariant 0 <= i <= |images|
      invariant y == FrameTop(height, i)
      invariant |frames| == i
      invariant forall k :: 0 <= k < i ==> frames[k] == Placement(BorderSize, FrameTop(height, k))
    {
      frames := frames + [Placement(BorderSize, y)];
      FrameTopStep(height, i);
      y := y + height + BorderSize;
      i := i + 1;
    }
    assert y == FramesEnd(height, |images|);
    var footerY := y + FooterHeight / 2;
    assert frames == StripFor(width, height, |images|).frames;
    r := Some(StripLayout(canvasWidth, canvasHeight, frames, footerY,
                          canvasWidth as real / 2.0, footerY + TitleOffset, footerY + DateOffset));
  }

  /** The canvas is one border wider than the frame on each side. */
  lemma StripWidth(w: nat, h: nat, n: nat)
    ensures StripFor(w, h, n).width == w + 2 * BorderSize
    ensures StripFor(w, h, n).captionX * 2.0 == StripFor(w, h, n).width as real
  {
  }

  /**
   * The height is n frames, n + 1 borders and the footer, plus one more
   * border below the footer.
   */
  lemma StripHeight(w: nat, h: nat, n: nat)
    ensures StripFor(w, h, n).height == n * h + (n + 1) * BorderSize + FooterHeight + BorderSize
    ensures StripFor(w, h, n).height == FramesEnd(h, n) + FooterHeight + BorderSize
  {
  }

  /** In every strip with at least one frame, the first frame sits one border from the left and the top. */
  lemma FirstFrameAtBorder(w: nat, h: nat, n: nat)
    requires 0 < n
    ensures StripFor(w, h, n).frames[0] == Placement(BorderSize, BorderSize)
  {
  }

  /** Frame k starts one border below frame k - 1 ends; the first starts one border from the top. */
  lemma {:induction false} FramesSeparatedByOneBorder(w: nat, h: nat, n: nat, k: nat)
    requires 0 < k < n
    ensures var s := StripFor(w, h, n);
      s.frames[0].y == BorderSize &&
      s.frames[k].y == s.frames[k - 1].y + h + BorderSize &&
      s.frames[k].x == BorderSize
  {
    FrameTopStep(h, k - 1);
  }

  /** Earlier frames lie strictly above later ones: drawn frames never overlap. */
  lemma {:induction false} FramesDisjoint(w: nat, h: nat, n: nat, j: nat, k: nat)
    requires j < k < n
    ensures var s := StripFor(w, h, n);
      s.frames[j].y + h + BorderSize <= s.frames[k].y
    decreases k - j
  {
    FrameTopStep(h, k - 1);
    if j < k - 1 {
      FramesDisjoint(w, h, n, j, k - 1);
    }
  }

  lemma {:induction false} FrameTopMonotone(h: nat, k: nat, n: nat)
    requires k < n
    ensures FrameTop(h, k) + h + BorderSize <= FramesEnd(h, n)
    decreases n - k
  {
    FrameTopStep(h, k);
    if k + 1 < n {
      FrameTopMonotone(h, k + 1, n);
    } else {
      assert FrameTop(h, n) == FramesEnd(h, n) by {
        assert n * (h + BorderSize) == n * h + n * BorderSize;
      }
    }
  }

  /**
   * Every frame, drawn at its natural w x h size, lies inside the canvas,
   * with at least one border between it and each edge and the footer.
   */
  lemma FramesInsideCanvas(w: nat, h: nat, n: nat, k: nat)
    requires k < n
    ensures var s := StripFor(w, h, n);
      BorderSize <= s.frames[k].x && s.frames[k].x + w + BorderSize == s.width &&
      BorderSize <= s.frames[k].y &&
      s.frames[k].y + h + BorderSize <= FramesEnd(h, n) &&
      FramesEnd(h, n) + FooterHeight + BorderSize == s.height
  {
    FrameTopMonotone(h, k, n);
  }

  /**
   * The geometry lemmas above speak of one frame size. The compositor takes
   * that size from the first loaded image; when every image has that size,
   * each image as drawn stays inside the canvas and below every earlier one.
   */
  lemma UniformImagesFit(images: seq<Frame>, j: nat, k: nat)
    requires j <= k < |images|
    requires forall i :: 0 <= i < |images| ==>
      images[i].width == images[0].width && images[i].height == images[0].height
    ensures var s := StripFor(images[0].width, images[0].height, |images|);
      s.frames[k].x + images[k].width + BorderSize == s.width &&
      s.frames[k].y + images[k].height + BorderSize + FooterHeight + BorderSize <= s.height &&
      (j < k ==> s.frames[j].y + images[j].height + BorderSize <= s.frames[k].y)
  {
    FramesInsideCanvas(images[0].width, images[0].height, |images|, k);
    if j < k {
      FramesDisjoint(images[0].width, images[0].height, |images|, j, k);
    }
  }

  /**
   * The footer anchor is the middle of the footer band that starts right
   * after the last frame's lower border, and both caption lines fall inside
   * that band.
   */
  lemma FooterInBand(w: nat, h: nat, n: nat)
    ensures var s := StripFor(w, h, n);
      s.footerY == FramesEnd(h, n) + FooterHeight / 2 &&
      FramesEnd(h, n) < s.titleY < s.dateY < FramesEnd(h, n) + FooterHeight
  {
  }
}
