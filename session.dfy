/**
 * The photo session of the booth component: the state it keeps, the
 * capture run started by the button (a countdown before every shot, one
 * capture per shot, then the merge), the merge and delivery of the strip,
 * and the reset when the result modal is closed.
 *
 * The component's state lives in the fields of `Booth`. Every method is
 * specified by a pure transition function on a `View` of those fields
 * (`Started`, `Merged`, `Delivered`, `Closed`), and the properties of the
 * session are lemmas about those functions.
 */
module Session {
  import opened Opt
  import Strip
  import Delivery

  const InitialPhotoCount: nat := 3
  /** Countdown length before the first shot and before each later one. */
  const CountdownFirst: nat := 5
  const CountdownSubsequent: nat := 3

  // ---------------------------------------------------------------------
  // The run's event trace.
  // ---------------------------------------------------------------------

  /** One step of a run as seen from outside: a value the countdown display takes, or a capture. */
  datatype Event = Show(value: Option<nat>) | Capture

  function Timer(i: nat): nat {
    if i == 0 then CountdownFirst else CountdownSubsequent
  }

  /** The values a countdown from t shows, one per tick: t, t - 1, ..., 1. */
  function Countdown(t: nat): seq<Event> {
    seq(t, k requires 0 <= k < t => Show(Some(t - k)))
  }

  /** Shot i: its countdown ticks, the display cleared, then the capture. */
  function ShotTrace(i: nat): seq<Event> {
    Countdown(Timer(i)) + [Show(None), Capture]
  }

  /** Every event of a run of n shots, in order. */
  function SessionTrace(n: nat): seq<Event> {
    if n == 0 then [] else SessionTrace(n - 1) + ShotTrace(n - 1)
  }

  /** Number of ticks (shown numbers) in a trace. */
  function TickCount(s: seq<Event>): nat {
    if s == [] then 0 else TickCount(s[..|s| - 1]) + (if s[|s| - 1].Show? && s[|s| - 1].value.Some? then 1 else 0)
  }

  lemma {:induction false} TickCountAppend(a: seq<Event>, b: seq<Event>)
    ensures TickCount(a + b) == TickCount(a) + TickCount(b)
    decreases |b|
  {
    if b != [] {
      assert (a + b)[..|a + b| - 1] == a + b[..|b| - 1];
      TickCountAppend(a, b[..|b| - 1]);
    } else {
      assert a + b == a;
    }
  }

  lemma {:induction false} TickCountAllTicks(s: seq<Event>)
    requires forall k :: 0 <= k < |s| ==> s[k].Show? && s[k].value.Some?
    ensures TickCount(s) == |s|
    decreases |s|
  {
    if s != [] {
      TickCountAllTicks(s[..|s| - 1]);
    }
  }

  /**
   * Shot i counts down from 5 when it is the first and from 3 otherwise, to
   * 1; then the display is cleared, and only then is the photo captured.
   */
  lemma ShotCountdown(i: nat, k: nat)
    requires k < Timer(i)
    ensures |ShotTrace(i)| == Timer(i) + 2
    ensures ShotTrace(i)[k] == Show(Some(Timer(i) - k)) && ShotTrace(i)[k] != Show(Some(0))
    ensures ShotTrace(i)[Timer(i)] == Show(None) && ShotTrace(i)[Timer(i) + 1] == Capture
    ensures Timer(i) == if i == 0 then 5 else 3
  {
  }

  /** In a run of n shots, every capture comes right after the display was cleared. */
  lemma {:induction false} CaptureAfterClear(n: nat, p: nat)
    requires p < |SessionTrace(n)| && SessionTrace(n)[p] == Capture
    ensures 0 < p && SessionTrace(n)[p - 1] == Show(None)
  {
    var prev := SessionTrace(n - 1);
    if p < |prev| {
      assert SessionTrace(n)[p] == prev[p];
      CaptureAfterClear(n - 1, p);
      assert SessionTrace(n)[p - 1] == prev[p - 1];
    } else {
      var shot := ShotTrace(n - 1);
      var q := p - |prev|;
      assert SessionTrace(n)[p] == shot[q];
      assert forall k :: 0 <= k <= Timer(n - 1) ==> shot[k].Show?;
      assert q == Timer(n - 1) + 1;
      assert SessionTrace(n)[p - 1] == shot[q - 1];
    }
  }

  /** A countdown shows only numbers: it neither clears the display nor captures. */
  lemma CountdownOnlyTicks(t: nat)
    ensures Capture !in Countdown(t) && Show(None) !in Countdown(t)
  {
    var ticks := Countdown(t);
    assert forall k :: 0 <= k < |ticks| ==> ticks[k].Show? && ticks[k].value.Some?;
  }

  /** How often event e occurs in a trace. */
  function Occurrences(s: seq<Event>, e: Event): nat {
    if s == [] then 0 else Occurrences(s[..|s| - 1], e) + (if s[|s| - 1] == e then 1 else 0)
  }

  lemma {:induction false} OccurrencesAppend(a: seq<Event>, b: seq<Event>, e: Event)
    ensures Occurrences(a + b, e) == Occurrences(a, e) + Occurrences(b, e)
    decreases |b|
  {
    if b != [] {
      assert (a + b)[..|a + b| - 1] == a + b[..|b| - 1];
      OccurrencesAppend(a, b[..|b| - 1], e);
    } else {
      assert a + b == a;
    }
  }

  lemma {:induction false} OccurrencesAbsent(s: seq<Event>, e: Event)
    requires e !in s
    ensures Occurrences(s, e) == 0
    decreases |s|
  {
    if s != [] {
      assert s[..|s| - 1] <= s;
      OccurrencesAbsent(s[..|s| - 1], e);
    }
  }

  /** A run of n shots clears the display n times and captures n times. */
  lemma {:induction false} ClearsAndCaptures(n: nat)
    ensures Occurrences(SessionTrace(n), Capture) == n && Occurrences(SessionTrace(n), Show(None)) == n
  {
    if n > 0 {
      ClearsAndCaptures(n - 1);
      var ticks := Countdown(Timer(n - 1));
      var tail := [Show(None), Capture];
      CountdownOnlyTicks(Timer(n - 1));
      assert tail[..1] == [Show(None)] && tail[..1][..0] == [];
      forall e | e == Capture || e == Show(None)
        ensures Occurrences(SessionTrace(n), e) == Occurrences(SessionTrace(n - 1), e) + 1
      {
        OccurrencesAppend(SessionTrace(n - 1), ticks + tail, e);
        OccurrencesAppend(ticks, tail, e);
        OccurrencesAbsent(ticks, e);
      }
    }
  }

  /** A run of n >= 1 shots ticks 5 + 3 * (n - 1) times; besides the ticks it has n clears and n captures. */
  lemma {:induction false} SessionTicks(n: nat)
    ensures n >= 1 ==> TickCount(SessionTrace(n)) == CountdownFirst + CountdownSubsequent * (n - 1)
    ensures n == 0 ==> TickCount(SessionTrace(n)) == 0
    ensures |SessionTrace(n)| == TickCount(SessionTrace(n)) + 2 * n
    ensures Occurrences(SessionTrace(n), Capture) == n && Occurrences(SessionTrace(n), Show(None)) == n
  {
    if n > 0 {
      SessionTicks(n - 1);
      TickCountAppend(SessionTrace(n - 1), ShotTrace(n - 1));
      TickCountAppend(Countdown(Timer(n - 1)), [Show(None), Capture]);
      TickCountAllTicks(Countdown(Timer(n - 1)));
      var tail := [Show(None), Capture];
      assert tail[..1] == [Show(None)] && tail[..1][..0] == [];
    }
    ClearsAndCaptures(n);
  }

  /** The default run of three shots ticks 11 times. */
  lemma ThreeShotTicks()
    ensures TickCount(SessionTrace(3)) == 11
  {
    SessionTicks(3);
  }

  /** The default run of three shots: 5 4 3 2 1, clear, capture, 3 2 1, clear, capture, 3 2 1, clear, capture. */
  lemma ThreeShotTrace()
    ensures SessionTrace(3) == [Show(Some(5)), Show(Some(4)), Show(Some(3)), Show(Some(2)), Show(Some(1)),
                                Show(None), Capture,
                                Show(Some(3)), Show(Some(2)), Show(Some(1)), Show(None), Capture,
                                Show(Some(3)), Show(Some(2)), Show(Some(1)), Show(None), Capture]
  {
    assert Countdown(5) == [Show(Some(5)), Show(Some(4)), Show(Some(3)), Show(Some(2)), Show(Some(1))];
    assert Countdown(3) == [Show(Some(3)), Show(Some(2)), Show(Some(1))];
  }

  /** The trace of the first i shots is the beginning of the trace of n >= i shots. */
  lemma {:induction false} SessionTracePrefix(i: nat, n: nat)
    requires i <= n
    ensures SessionTrace(i) <= SessionTrace(n)
    decreases n - i
  {
    if i < n {
      SessionTracePrefix(i, n - 1);
    }
  }

  // ---------------------------------------------------------------------
  // The captured images.
  // ---------------------------------------------------------------------

  /** The images kept from a run: the non-null capture results, in capture order. */
  function Captured(shots: seq<Option<Strip.Frame>>): (images: seq<Strip.Frame>)
    ensures |images| <= |shots|
  {
    if shots == [] then []
    else
      var last := shots[|shots| - 1];
      Captured(shots[..|shots| - 1]) + (if last.Some? then [last.value] else [])
  }

  lemma {:induction false} CapturedAppend(a: seq<Option<Strip.Frame>>, b: seq<Option<Strip.Frame>>)
    ensures Captured(a + b) == Captured(a) + Captured(b)
    decreases |b|
  {
    if b == [] {
      assert a + b == a;
    } else {
      assert (a + b)[..|a + b| - 1] == a + b[..|b| - 1];
      CapturedAppend(a, b[..|b| - 1]);
    }
  }

  /** Nothing is kept exactly when every capture returned nothing. */
  lemma {:induction false} CapturedEmpty(shots: seq<Option<Strip.Frame>>)
    ensures Captured(shots) == [] <==> forall k :: 0 <= k < |shots| ==> shots[k].None?
    decreases |shots|
  {
    if shots != [] {
      CapturedEmpty(shots[..|shots| - 1]);
      assert forall k :: 0 <= k < |shots| - 1 ==> shots[..|shots| - 1][k] == shots[k];
    }
  }

  /** Every kept image is one of the capture results, and all are kept when all captures succeed. */
  lemma {:induction false} CapturedFromShots(shots: seq<Option<Strip.Frame>>)
    ensures forall f :: f in Captured(shots) ==> Some(f) in shots
    ensures (forall k :: 0 <= k < |shots| ==> shots[k].Some?) ==> |Captured(shots)| == |shots|
    decreases |shots|
  {
    if shots != [] {
      var init := shots[..|shots| - 1];
      CapturedFromShots(init);
      assert forall k :: 0 <= k < |init| ==> init[k] == shots[k];
      assert forall o :: o in init ==> o in shots;
    }
  }

  /** Shot i adds its image to the kept images exactly when its capture returned one. */
  lemma KeptAfterShot(shots: seq<Option<Strip.Frame>>, i: nat)
    requires i < |shots|
    ensures Captured(shots[..i + 1]) ==
            Captured(shots[..i]) + (if shots[i].Some? then [shots[i].value] else [])
  {
    assert shots[..i + 1][..i] == shots[..i];
  }

  // ---------------------------------------------------------------------
  // The component's state and its transitions.
  // ---------------------------------------------------------------------

  /**
   * The state of the component: the React state variables, whether the
   * video element has a camera stream, the upload requests posted and the
   * downloads triggered, and the run's events: every value the countdown
   * display has taken and every capture, in order.
   */
  datatype View = View(
    numPhotos: nat,
    hasStream: bool,
    isCapturing: bool,
    isProcessing: bool,
    countdown: Option<nat>,
    capturedImages: seq<Strip.Frame>,
    finalImage: Option<string>,
    qrCodeUrl: string,
    showModal: bool,
    uploads: seq<Delivery.UploadBody>,
    downloads: seq<Delivery.Download>,
    events: seq<Event>)

  /**
   * What the outside world answers during a merge: whether the canvas is
   * mounted and yields a 2D context, whether every captured image loads,
   * the data URL the canvas encodes for a layout and its images, the
   * upload's outcome, the QR library, and the two timestamps.
   */
  datatype MergeEnv = MergeEnv(
    canvasMounted: bool,
    hasContext: bool,
    imagesLoad: bool,
    render: (Strip.StripLayout, seq<Strip.Frame>) -> string,
    upload: Delivery.Upload,
    qrCode: string -> Option<string>,
    uploadStamp: string,
    downloadStamp: string)

  function Initial(hasStream: bool): View {
    View(InitialPhotoCount, hasStream, false, false, None, [], None, "", false, [], [], [])
  }

  /** `uploadToDrive(dataUrl)`: post the body, then show the QR code or download. */
  function Delivered(v: View, dataUrl: string, env: MergeEnv): View {
    var posted := v.(uploads := v.uploads + [Delivery.RequestBody(dataUrl, env.uploadStamp)]);
    Settled(posted, Delivery.Deliver(dataUrl, env.upload, env.qrCode, env.downloadStamp))
  }

  /** The view once the upload's outcome is known: the modal with the QR code, or a download. */
  function Settled(posted: View, d: Delivery.Delivery): View {
    match d
    case Remote(_, qr, image) =>
      posted.(qrCodeUrl := qr, finalImage := Some(image), showModal := true)
    case Local(href, name) =>
      posted.(downloads := posted.downloads + [Delivery.Download(href, name)])
  }

  /** The data URL of the strip for a non-empty list of images. */
  function StripImage(images: seq<Strip.Frame>, env: MergeEnv): string
    requires images != []
  {
    env.render(Strip.StripFor(images[0].width, images[0].height, |images|), images)
  }

  /**
   * `handleMergeAndProcess(images)`: nothing for no images or no canvas;
   * without a 2D context only the processing flag is raised and lowered;
   * otherwise the strip is composed and delivered (unless an image fails to
   * load), and both flags are lowered at the end.
   */
  function Merged(v: View, images: seq<Strip.Frame>, env: MergeEnv): View {
    if images == [] || !env.canvasMounted then v
    else if !env.hasContext then v.(isProcessing := false)
    else
      var done := if env.imagesLoad then Delivered(v, StripImage(images, env), env) else v;
      done.(isProcessing := false, isCapturing := false)
  }

  /** The state right after the capture loop of a run. */
  function Captures(v: View, shots: seq<Option<Strip.Frame>>): View {
    v.(isCapturing := true,
       capturedImages := Captured(shots),
       countdown := if v.numPhotos == 0 then v.countdown else None,
       events := v.events + SessionTrace(v.numPhotos))
  }

  /**
   * `handleStartCapture`: nothing without a camera stream; otherwise the
   * capture loop, then the merge when at least one image was kept, or the
   * end of capturing when none was.
   */
  function Started(v: View, shots: seq<Option<Strip.Frame>>, env: MergeEnv): View {
    if !v.hasStream then v
    else
      var c := Captures(v, shots);
      if c.capturedImages != [] then Merged(c, c.capturedImages, env)
      else c.(isCapturing := false)
  }

  /** `closeModal` */
  function Closed(v: View): View {
    v.(showModal := false, finalImage := None, qrCodeUrl := "", capturedImages := [])
  }

  // ---------------------------------------------------------------------
  // Properties of a run.
  // ---------------------------------------------------------------------

  /** Without a camera stream a start changes nothing: not the capturing flag, not the images. */
  lemma StartWithoutStream(v: View, shots: seq<Option<Strip.Frame>>, env: MergeEnv)
    requires !v.hasStream
    ensures Started(v, shots, env) == v
  {
  }

  /**
   * A started run shows the session's countdown trace, keeps exactly the
   * non-null captures in capture order, and keeps no more images than
   * shots; the modal, if it opens, leaves the images in place.
   */
  lemma RunTraceAndImages(v: View, shots: seq<Option<Strip.Frame>>, env: MergeEnv)
    requires v.hasStream && |shots| == v.numPhotos
    ensures var r := Started(v, shots, env);
      r.events == v.events + SessionTrace(v.numPhotos) &&
      r.capturedImages == Captured(shots) &&
      |r.capturedImages| <= v.numPhotos &&
      (v.numPhotos > 0 ==> r.countdown == None) &&
      r.numPhotos == v.numPhotos && r.hasStream
  {
  }

  /**
   * The strip is uploaded exactly when some capture succeeded and the
   * canvas, its context and every image were available; then exactly one
   * request is posted, carrying the strip's data URL.
   */
  lemma MergeOnlyWithImages(v: View, shots: seq<Option<Strip.Frame>>, env: MergeEnv)
    requires v.hasStream
    ensures var r := Started(v, shots, env);
      var delivered := Captured(shots) != [] && env.canvasMounted && env.hasContext && env.imagesLoad;
      (delivered ==> r.uploads == v.uploads + [Delivery.RequestBody(StripImage(Captured(shots), env), env.uploadStamp)]) &&
      (!delivered ==> r.uploads == v.uploads && r.downloads == v.downloads && r.showModal == v.showModal)
  {
  }

  /** A run in which nothing was captured ends capturing without processing. */
  lemma NothingCaptured(v: View, shots: seq<Option<Strip.Frame>>, env: MergeEnv)
    requires v.hasStream
    requires forall k :: 0 <= k < |shots| ==> shots[k].None?
    ensures var r := Started(v, shots, env);
      !r.isCapturing && r.isProcessing == v.isProcessing && r.capturedImages == []
  {
    CapturedEmpty(shots);
  }

  /**
   * With the canvas and its context present the run always ends idle: the
   * `finally` of the merge clears both flags, whether the images loaded or
   * not and whatever the upload did.
   */
  lemma RunEndsIdle(v: View, shots: seq<Option<Strip.Frame>>, env: MergeEnv)
    requires v.hasStream && !v.isProcessing
    requires env.canvasMounted && env.hasContext
    ensures var r := Started(v, shots, env);
      !r.isCapturing && !r.isProcessing
  {
  }

  /**
   * Without a 2D context the merge returns before its `finally`: capturing
   * is left on, so the start button stays disabled.
   */
  lemma MissingContextKeepsCapturing(v: View, shots: seq<Option<Strip.Frame>>, env: MergeEnv)
    requires v.hasStream && Captured(shots) != []
    requires !env.hasContext || !env.canvasMounted
    ensures Started(v, shots, env).isCapturing
  {
  }

  /**
   * When the strip is delivered the modal opens exactly for an accepted
   * upload whose URL the QR library encodes, with that code and the strip;
   * in every other case the very same data URL is downloaded instead.
   */
  lemma DeliveryOutcome(v: View, dataUrl: string, env: MergeEnv)
    requires !v.showModal
    ensures var r := Delivered(v, dataUrl, env);
      var accepted := Delivery.Accepted(env.upload) && env.qrCode(env.upload.reply.fileUrl.value).Some?;
      (r.showModal <==> accepted) &&
      (accepted ==> r.finalImage == Some(dataUrl) &&
                    r.qrCodeUrl == env.qrCode(env.upload.reply.fileUrl.value).value &&
                    r.downloads == v.downloads) &&
      (!accepted ==> r.downloads == v.downloads + [Delivery.Download(dataUrl, Delivery.FileName(env.downloadStamp))] &&
                     r.finalImage == v.finalImage && r.qrCodeUrl == v.qrCodeUrl)
  {
  }

  /** Closing the modal clears it, the final image, the QR code and the captured images, and nothing else. */
  lemma CloseModalClears(v: View)
    ensures var r := Closed(v);
      !r.showModal && r.finalImage == None && r.qrCodeUrl == "" && r.capturedImages == [] &&
      r.(showModal := v.showModal, finalImage := v.finalImage, qrCodeUrl := v.qrCodeUrl,
         capturedImages := v.capturedImages) == v
  {
  }

  // ---------------------------------------------------------------------
  // The component.
  // ---------------------------------------------------------------------

  class Booth {
    var numPhotos: nat
    var hasStream: bool
    var isCapturing: bool
    var isProcessing: bool
    var countdown: Option<nat>
    var capturedImages: seq<Strip.Frame>
    var finalImage: Option<string>
    var qrCodeUrl: string
    var showModal: bool
    var uploads: seq<Delivery.UploadBody>
    var downloads: seq<Delivery.Download>
    ghost var events: seq<Event>

    ghost function State(): View
      reads this
    {
      View(numPhotos, hasStream, isCapturing, isProcessing, countdown, capturedImages,
           finalImage, qrCodeUrl, showModal, uploads, downloads, events)
    }

    /** The component as first rendered, with or without a camera stream. */
    constructor (hasStream: bool)
      ensures State() == Initial(hasStream)
    {
      numPhotos := InitialPhotoCount;
      this.hasStream := hasStream;
      isCapturing := false;
      isProcessing := false;
      countdown := None;
      capturedImages := [];
      finalImage := None;
      qrCodeUrl := "";
      showModal := false;
      uploads := [];
      downloads := [];
      events := [];
    }

    /** Shows one countdown value. */
    method SetCountdown(value: Option<nat>)
      modifies this`countdown, this`events
      ensures countdown == value && events == old(events) + [Show(value)]
    {
      countdown := value;
      events := events + [Show(value)];
    }

    /** The countdown before one shot: timer, timer - 1, ..., 1, then cleared. */
    method CountDown(timer: nat)
      modifies this`countdown, this`events
      ensures countdown == None
      ensures events == old(events) + Countdown(timer) + [Show(None)]
    {
      var j := timer;
      while j > 0
        invariant 0 <= j <= timer
        invariant events == old(events) + Countdown(timer)[..timer - j]
      {
        SetCountdown(Some(j));
        assert Countdown(timer)[..timer - (j - 1)] == Countdown(timer)[..timer - j] + [Show(Some(j))];
        j := j - 1;
      }
      SetCountdown(None);
      assert Countdown(timer)[..timer] == Countdown(timer);
    }

    /** `uploadToDrive` */
    method UploadToDrive(dataUrl: string, env: MergeEnv)
      modifies this`uploads, this`qrCodeUrl, this`finalImage, this`showModal, this`downloads
      ensures State() == Delivered(old(State()), dataUrl, env)
    {
      var body := Delivery.RequestBody(dataUrl, env.uploadStamp);
      PostBody(body);
      var outcome := Delivery.Deliver(dataUrl, env.upload, env.qrCode, env.downloadStamp);
      ShowOutcome(outcome);
    }

    /** The `fetch` of the upload body, recorded as one more posted request. */
    method PostBody(body: Delivery.UploadBody)
      modifies this`uploads
      ensures State() == old(State()).(uploads := old(uploads) + [body])
    {
      uploads := uploads + [body];
    }

    /** The two endings of `uploadToDrive`: the modal with the QR code, or the download. */
    method ShowOutcome(d: Delivery.Delivery)
      modifies this`qrCodeUrl, this`finalImage, this`showModal, this`downloads
      ensures State() == Settled(old(State()), d)
    {
      match d {
        case Remote(_, qr, image) =>
          qrCodeUrl := qr;
          finalImage := Some(image);
          showModal := true;
        case Local(href, name) =>
          downloads := downloads + [Delivery.Download(href, name)];
      }
    }

    /** `handleMergeAndProcess` */
    method MergeAndProcess(images: seq<Strip.Frame>, env: MergeEnv)
      modifies this`isProcessing, this`isCapturing, this`uploads, this`qrCodeUrl, this`finalImage,
        this`showModal, this`downloads
      ensures State() == Merged(old(State()), images, env)
    {
      if |images| == 0 || !env.canvasMounted {
        return;
      }
      isProcessing := true;
      if !env.hasContext {
        isProcessing := false;
        return;
      }
      if env.imagesLoad {
        var layout := Strip.Compose(images);
        var mergedImage := env.render(layout.value, images);
        UploadToDrive(mergedImage, env);
      }
      isProcessing := false;
      isCapturing := false;
    }

    /**
     * The `for` loop of `handleStartCapture`. shots[i] is what the capture
     * of shot i returns; the countdown ticks are discrete steps, the delays
     * and the flash are not modelled.
     */
    method CaptureShots(shots: seq<Option<Strip.Frame>>) returns (newImages: seq<Strip.Frame>)
      requires |shots| == numPhotos
      modifies this`capturedImages, this`countdown, this`events
      ensures newImages == capturedImages == Captured(shots)
      ensures countdown == if numPhotos == 0 then old(countdown) else None
      ensures events == old(events) + SessionTrace(numPhotos)
    {
      var n := numPhotos;
      newImages := [];
      capturedImages := [];
      for i := 0 to n
        invariant newImages == capturedImages == Captured(shots[..i])
        invariant countdown == if i == 0 then old(countdown) else None
        invariant events == old(events) + SessionTrace(i)
      {
        newImages := TakeShot(i, shots[i], newImages);
        KeptAfterShot(shots, i);
      }
      assert shots[..n] == shots;
    }

    /** One iteration of the loop: shot i's countdown, then its capture. */
    method TakeShot(i: nat, imageData: Option<Strip.Frame>, kept: seq<Strip.Frame>) returns (newImages: seq<Strip.Frame>)
      modifies this`capturedImages, this`countdown, this`events
      ensures newImages == kept + (if imageData.Some? then [imageData.value] else [])
      ensures capturedImages == if imageData.Some? then newImages else old(capturedImages)
      ensures countdown == None
      ensures events == old(events) + ShotTrace(i)
    {
      var timer := Timer(i);
      CountDown(timer);
      newImages := KeepShot(imageData, kept);
    }

    /**
     * The end of one iteration, once the display is cleared: the capture,
     * whose image is appended and shown, or skipped when there is none.
     */
    method KeepShot(imageData: Option<Strip.Frame>, kept: seq<Strip.Frame>) returns (newImages: seq<Strip.Frame>)
      requires countdown == None
      modifies this`capturedImages, this`events
      ensures newImages == kept + (if imageData.Some? then [imageData.value] else [])
      ensures capturedImages == if imageData.Some? then newImages else old(capturedImages)
      ensures events == old(events) + [Capture]
    {
      events := events + [Capture];
      newImages := kept;
      if imageData.Some? {
        newImages := newImages + [imageData.value];
        capturedImages := newImages;
      }
    }

    /** `handleStartCapture` */
    method StartCapture(shots: seq<Option<Strip.Frame>>, env: MergeEnv)
      requires |shots| == numPhotos
      modifies this
      ensures State() == Started(old(State()), shots, env)
    {
      if !hasStream {
        return;
      }
      isCapturing := true;
      var newImages := CaptureShots(shots);
      assert State() == Captures(old(State()), shots);
      if |newImages| > 0 {
        MergeAndProcess(newImages, env);
      } else {
        isCapturing := false;
      }
    }

    /** `closeModal` */
    method CloseModal()
      modifies this
      ensures State() == Closed(old(State()))
    {
      showModal := false;
      finalImage := None;
      qrCodeUrl := "";
      capturedImages := [];
    }
  }
}
