/**
 * The layout effect of the booth screen: a 4:3 box for the live video in
 * the left column and a 4:3 box for each preview in the right column, each
 * as large as the space set aside for it allows. Sizes are exact reals.
 */
module Layout {
  const VideoColumnShare: real := 0.7
  const PreviewColumnShare: real := 0.3
  /** Height kept free below the video for the controls. */
  const ControlsHeight: real := 150.0
  /** Gap between the two columns. */
  const ColumnGap: real := 8.0
  /** Gap between two previews. */
  const PreviewGap: real := 4.0

  datatype Box = Box(width: real, height: real)

  datatype ScreenLayout = ScreenLayout(video: Box, preview: Box)

  /**
   * JavaScript's `w / h > 4 / 3`. A zero divisor gives an infinity of the
   * dividend's sign (or NaN for 0 / 0), so the test holds then exactly when
   * w is positive; a negative divisor turns the comparison around.
   */
  predicate RatioAbove(w: real, h: real) {
    if h > 0.0 then w * 3.0 > h * 4.0
    else if h < 0.0 then w * 3.0 < h * 4.0
    else w > 0.0
  }

  /** For a non-zero divisor RatioAbove is the comparison of the exact quotient. */
  lemma RatioAboveIsQuotient(w: real, h: real)
    requires h != 0.0
    ensures RatioAbove(w, h) <==> w / h > 4.0 / 3.0
  {
    var q := w / h;
    assert q * h == w;
    if h > 0.0 {
      if q > 4.0 / 3.0 {
        assert (q - 4.0 / 3.0) * h > 0.0;
      } else {
        assert (4.0 / 3.0 - q) * h >= 0.0;
      }
    } else {
      if q > 4.0 / 3.0 {
        assert (q - 4.0 / 3.0) * h < 0.0;
      } else {
        assert (4.0 / 3.0 - q) * h <= 0.0;
      }
    }
  }

  /**
   * What the code promises of a fitted box: ratio 4:3, one side equal to
   * the space available, and inside that space whenever the space is not
   * degenerate.
   */
  ghost predicate Fitted(b: Box, availableWidth: real, availableHeight: real) {
    && b.width * 3.0 == b.height * 4.0
    && (b.width == availableWidth || b.height == availableHeight)
    && (availableWidth >= 0.0 && availableHeight > 0.0 ==>
          b.width <= availableWidth && b.height <= availableHeight)
  }

  /**
   * Fit a 4:3 box to the available space: start from the full width and
   * switch to the full height when the space is wider than 4:3.
   */
  method FitBox(availableWidth: real, availableHeight: real) returns (b: Box)
    ensures Fitted(b, availableWidth, availableHeight)
    ensures RatioAbove(availableWidth, availableHeight) <==> b.height == availableHeight && b.width != availableWidth
  {
    var width := availableWidth;
    var height := availableWidth * 3.0 / 4.0;
    if RatioAbove(availableWidth, availableHeight) {
      height := availableHeight;
      width := availableHeight * 4.0 / 3.0;
    }
    b := Box(width, height);
  }

  /**
   * In non-degenerate space a fitted box is the largest 4:3 box there is:
   * any other 4:3 box inside the same space is no wider.
   */
  lemma FittedIsLargest(b: Box, other: Box, availableWidth: real, availableHeight: real)
    requires availableWidth >= 0.0 && availableHeight > 0.0
    requires Fitted(b, availableWidth, availableHeight)
    requires other.width * 3.0 == other.height * 4.0
    requires other.width <= availableWidth && other.height <= availableHeight
    ensures other.width <= b.width && other.height <= b.height
  {
  }

  function VideoSpace(screenWidth: real, screenHeight: real): Box {
    Box(screenWidth * VideoColumnShare, screenHeight - ControlsHeight)
  }

  function PreviewSpace(screenWidth: real, screenHeight: real, numPhotos: nat): Box
    requires numPhotos > 0
  {
    Box(screenWidth * PreviewColumnShare - ColumnGap,
        screenHeight / numPhotos as real - (numPhotos + 1) as real * PreviewGap)
  }

  /**
   * The layout effect: the video box is fitted into 70% of the screen width
   * and the screen height less the controls; each preview box into 30% of
   * the width less the column gap and a 1/numPhotos share of the height
   * less the gaps between previews.
   */
  method ComputeLayout(screenWidth: real, screenHeight: real, numPhotos: nat) returns (l: ScreenLayout)
    requires numPhotos > 0
    ensures var v := VideoSpace(screenWidth, screenHeight);
      Fitted(l.video, v.width, v.height) &&
      (RatioAbove(v.width, v.height) <==> l.video.height == v.height && l.video.width != v.width)
    ensures var p := PreviewSpace(screenWidth, screenHeight, numPhotos);
      Fitted(l.preview, p.width, p.height) &&
      (RatioAbove(p.width, p.height) <==> l.preview.height == p.height && l.preview.width != p.width)
  {
    var availableWidthForVideo := screenWidth * VideoColumnShare;
    var availableHeightForVideo := screenHeight - ControlsHeight;
    var video := FitBox(availableWidthForVideo, availableHeightForVideo);

    var availableWidthForPreviewPhoto := screenWidth * PreviewColumnShare - ColumnGap;
    var availableHeightForPreviewPhoto := screenHeight / numPhotos as real - (numPhotos + 1) as real * PreviewGap;
    var preview := FitBox(availableWidthForPreviewPhoto, availableHeightForPreviewPhoto);

    l := ScreenLayout(video, preview);
  }

  lemma MultiplyBound(n: real, x: real, y: real)
    requires n >= 0.0 && x <= y
    ensures n * x <= n * y
  {
    assert n * (y - x) >= 0.0;
  }

  /** All numPhotos previews, stacked with their gaps, fit into the screen height. */
  lemma PreviewsFitScreenHeight(screenWidth: real, screenHeight: real, numPhotos: nat, preview: Box)
    requires numPhotos > 0
    requires var p := PreviewSpace(screenWidth, screenHeight, numPhotos);
      p.width >= 0.0 && p.height > 0.0 && Fitted(preview, p.width, p.height)
    ensures numPhotos as real * preview.height + (numPhotos + 1) as real * PreviewGap <= screenHeight
  {
    var n := numPhotos as real;
    var share := screenHeight / n;
    var gaps := (numPhotos + 1) as real * PreviewGap;
    assert PreviewSpace(screenWidth, screenHeight, numPhotos).height == share - gaps;
    assert preview.height <= share - gaps;
    MultiplyBound(n, preview.height, share - gaps);
    assert n * (share - gaps) == n * share - n * gaps;
    assert n * share == screenHeight;
    assert n * gaps >= gaps by { MultiplyBound(gaps, 1.0, n); }
    calc {
      n * preview.height + gaps;
    <= n * share - n * gaps + gaps;
    <= screenHeight;
    }
  }
}
