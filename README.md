# Photo booth core, modelled in Dafny

This project models the non-rendering core of the `PhotoBooth` React
component of a kiosk photo booth. The booth counts down before each shot,
captures a frame from the webcam, and crops it to 4:3. After the last shot it
merges the frames into one bordered vertical strip with a caption footer. It
then uploads the strip and shows a QR code for it, or downloads it to the
device when the upload fails.

Modules, one per part of the component:

- `Crop` (crop.dfy): the centre crop of `capturePhoto`, and when it returns no image.
- `Strip` (strip.dfy): the canvas size, frame offsets and footer anchor of `handleMergeAndProcess`.
- `Delivery` (delivery.dfy): the data-URL split of `uploadToDrive` with JavaScript's `indexOf`,
  `substring` and `split` semantics, the request body, and the choice between the remote result and
  the local download.
- `Layout` (layout.dfy): the effect that fits the 4:3 video box and preview boxes to the viewport.
- `Session` (session.dfy): the component's state as the class `Booth`. Its methods are
  `StartCapture` (`handleStartCapture`, with its capture loop `CaptureShots`, one iteration
  `TakeShot`, the countdown `CountDown` and the capture `KeepShot`), `MergeAndProcess`, `UploadToDrive` and `CloseModal`. Each method is specified by a
  pure transition function on a `View` of the fields (`Started`, `Merged`, `Delivered`, `Closed`), and
  the properties of a session are lemmas about those functions. A ghost field records the run's
  events in order: every value the countdown display takes and every capture.
- `Opt` (option.dfy): the `Option` type that stands for `null`/`undefined`.

The outside world is passed in as values. `shots[i]` is what the capture of shot i returned.
`MergeEnv` holds:

- whether the canvas is mounted and has a 2D context;
- whether every image loads;
- the canvas's encoding of the strip;
- the upload's outcome;
- the QR library;
- the two timestamps.

Points of the code that the model keeps as they are:

- The canvas height adds one more `BORDER_SIZE` below the footer (line 199), so the strip is
  n·H + (n+1)·border + footer + border high.
- A failed merge only shows a message and clears `isProcessing` and `isCapturing`; there is no
  failed state.
- There is no cancel operation. `closeModal` is the only reset: it clears the modal, the final
  image, the QR code and the captured images.
- A capture that yields no image is skipped and the run continues with the next shot.

## Model

| member | source | states |
|---|---|---|
| Crop.SourceRectShape | src/components/photo-booth.tsx:87-99 | the crop as written has ratio 4:3 and is centred on the frame, for every frame size |
| Crop.PortraitCrop | src/components/photo-booth.tsx:92-95 | a portrait frame keeps x = 0 and its full width; the height becomes w·3/4, centred vertically, inside the frame |
| Crop.WideCrop | src/components/photo-booth.tsx:96-99 | a frame at least 4:3 wide keeps y = 0 and its full height; the width becomes h·4/3, inside the frame |
| Crop.FourByThreeFrameUnchanged | src/components/photo-booth.tsx:96-99 | a frame that is already 4:3 is cropped to itself |
| Crop.SquareFrameOverruns | src/components/photo-booth.tsx:96-99 | as written, a 480×480 frame gets the rectangle x = −80, width 640, which leaves the frame |
| Crop.IntendedRectFits | src/components/photo-booth.tsx:87-99 | the corrected crop is 4:3, centred and inside every frame |
| Crop.IntendedRectIsLargest | src/components/photo-booth.tsx:87-99 | no 4:3 rectangle inside the frame is wider than the corrected crop |
| Crop.IntendedAgreesOutsideBand | src/components/photo-booth.tsx:92-99 | the corrected crop equals the code's crop except for frames between square and 4:3 |
| Crop.SourceRect | src/components/photo-booth.tsx:87-99 | the crop as written is 4:3, centred on the frame and keeps one full side of it |
| Crop.LandscapeCrop | src/components/photo-booth.tsx:96-99 | every frame with width ≥ height keeps y = 0 and its full height, and gets width h·4/3, centred horizontally |
| Crop.BandFrameOverruns | src/components/photo-booth.tsx:93-99 | every frame from square up to but not including 4:3 gets a rectangle with x < 0 that leaves the frame |
| Crop.CapturePhoto | src/components/photo-booth.tsx:77-121 | an image comes back iff the video, canvas and context exist and readyState is 4; its rectangle is the crop as written: 4:3, centred, one full side kept, and inside the frame for portrait frames and frames at least 4:3 wide |
| Strip.Compose | src/components/photo-booth.tsx:192-221 | no layout for no images; otherwise the size comes from the first image and the frame offsets accumulated by the loop equal the closed form BORDER + k·(H + BORDER) |
| Strip.StripWidth | src/components/photo-booth.tsx:198-221 | the canvas is W + 2·BORDER wide and the captions are centred horizontally |
| Strip.StripHeight | src/components/photo-booth.tsx:194-199 | the canvas is n·H + (n+1)·BORDER + FOOTER + BORDER high |
| Strip.FirstFrameAtBorder | src/components/photo-booth.tsx:204-206 | in every strip with at least one frame, the first frame is drawn at (BORDER, BORDER) |
| Strip.FramesSeparatedByOneBorder | src/components/photo-booth.tsx:204-208 | the first frame is one border from the top, and each next frame starts exactly one border below the previous one |
| Strip.FramesDisjoint | src/components/photo-booth.tsx:204-208 | any two drawn frames are separated by at least one border, so they never overlap |
| Strip.FramesInsideCanvas | src/components/photo-booth.tsx:194-208 | every frame lies inside the canvas, with a border to each side and above the footer band |
| Strip.UniformImagesFit | src/components/photo-booth.tsx:192-208 | when all loaded images share the first image's size, each is drawn inside the canvas, above the footer band and below every earlier image |
| Strip.FooterInBand | src/components/photo-booth.tsx:210-221 | the footer anchor is y_end + FOOTER/2, and both caption lines fall inside the footer band |
| Delivery.IndexOf | src/components/photo-booth.tsx:135 | `indexOf` returns the first position of the character, or −1 exactly when the character is absent |
| Delivery.Substring | src/components/photo-booth.tsx:135 | `substring` takes the slice between in-range bounds and swaps reversed ones. A negative bound acts as 0 and a bound past the end as the length, so an end of −1 (no ';') gives the prefix up to the start |
| Delivery.UpTo | src/components/photo-booth.tsx:134 | a comma-free prefix of the text that ends right before its first comma, or the whole text when it has no comma: the second field of `split(",")` |
| Delivery.MimeType | src/components/photo-booth.tsx:135 | the MIME type is never longer than the data URL it is cut from |
| Delivery.MimeTypeBetween | src/components/photo-booth.tsx:135 | the text strictly between the first ':' and the first ';' when ':' comes first; from the start up to ';' when there is no ':' |
| Delivery.Base64Payload | src/components/photo-booth.tsx:134 | no payload exactly when there is no comma; a payload never contains a comma |
| Delivery.Base64PayloadAfterComma | src/components/photo-booth.tsx:134 | the payload is the text right after the first comma, up to the second comma, or to the end when there is no second comma |
| Delivery.ParseDataUrl | src/components/photo-booth.tsx:134-135 | parsing inverts "data:" + mime + ";base64," + payload and gives back the MIME type and the payload |
| Delivery.ParseJpegExample | src/components/photo-booth.tsx:134-135 | "data:image/jpeg;base64,XYZ" gives "image/jpeg" and "XYZ" |
| Delivery.MimeTypeWithoutSemicolon | src/components/photo-booth.tsx:135 | without any ';', the MIME type is everything up to and including the first ':' |
| Delivery.RequestBody | src/components/photo-booth.tsx:137-141 | the posted body carries the time-stamped file name, and the MIME type and payload of a well-formed data URL |
| Delivery.Deliver | src/components/photo-booth.tsx:150-166 | the result is remote iff the status is "success", fileUrl is non-empty and the QR code is generated; otherwise the same data URL is downloaded |
| Delivery.FailingUploadFallsBack | src/components/photo-booth.tsx:155-166 | an upload that throws or does not report success yields the local download of exactly the merged data URL |
| Delivery.SuccessfulUploadIsRemote | src/components/photo-booth.tsx:150-154 | a successful upload yields the remote result with exactly that URL and its QR code |
| Delivery.SuccessWithoutUrlFallsBack | src/components/photo-booth.tsx:150-157 | a "success" reply with a missing or empty fileUrl still falls back to the download |
| Layout.RatioAboveIsQuotient | src/components/photo-booth.tsx:312 | for a non-zero divisor, the model of `w / h > 4 / 3` is the comparison of the exact quotient |
| Layout.FitBox | src/components/photo-booth.tsx:309-315 | the box is 4:3 and takes one full side of the available space. It lies inside a non-degenerate space, and it takes the full height exactly when the space is wider than 4:3 |
| Layout.FittedIsLargest | src/components/photo-booth.tsx:309-327 | in a non-degenerate space, no other 4:3 box inside it is larger than the fitted box |
| Layout.ComputeLayout | src/components/photo-booth.tsx:302-327 | the video box is fitted to 70% of the width and the height less 150; the preview box is fitted to 30% of the width less 8 and a 1/numPhotos share of the height less the gaps. Each box takes the full height exactly when its space passes line 312's `w / h > 4 / 3` test |
| Layout.PreviewsFitScreenHeight | src/components/photo-booth.tsx:317-327 | the numPhotos preview boxes and their gaps fit into the screen height |
| Session.ShotCountdown | src/components/photo-booth.tsx:262-273 | shot i shows timer, timer−1, …, 1 (timer = 5 for the first shot, 3 after that); then the display is cleared, and only then is the photo captured |
| Session.CaptureAfterClear | src/components/photo-booth.tsx:262-273 | in a run of any length, every capture comes immediately after the countdown display was cleared |
| Session.ClearsAndCaptures | src/components/photo-booth.tsx:259-273 | a run of n shots clears the countdown display exactly n times and captures exactly n times |
| Session.SessionTicks | src/components/photo-booth.tsx:262-273 | a run of n ≥ 1 shots ticks 5 + 3·(n−1) times; its other events are n clears and n captures |
| Session.ThreeShotTicks | src/components/photo-booth.tsx:262-268 | the three-shot run ticks 11 times |
| Session.ThreeShotTrace | src/components/photo-booth.tsx:262-273 | the three-shot run is 5 4 3 2 1, clear, capture, 3 2 1, clear, capture, 3 2 1, clear, capture |
| Session.SessionTracePrefix | src/components/photo-booth.tsx:262-273 | the events of the first i shots are the start of the events of every longer run |
| Session.Captured | src/components/photo-booth.tsx:273-277 | a run keeps no more images than it has shots |
| Session.CapturedAppend | src/components/photo-booth.tsx:273-277 | kept images follow capture order: the images kept from two stretches of shots are concatenated |
| Session.CapturedEmpty | src/components/photo-booth.tsx:273-285 | no image is kept iff every capture returned nothing |
| Session.CapturedFromShots | src/components/photo-booth.tsx:273-277 | every kept image is a capture result, and all of them are kept when every capture succeeds |
| Session.StartWithoutStream | src/components/photo-booth.tsx:247-256 | a start without a camera stream changes no state |
| Session.RunTraceAndImages | src/components/photo-booth.tsx:258-279 | a started run records the session's events (countdowns, clears and captures in order) and ends with the display cleared. It keeps exactly the non-null captures in order, no more than numPhotos |
| Session.MergeOnlyWithImages | src/components/photo-booth.tsx:281-285 | the strip is uploaded, as one request carrying its data URL, exactly when an image was kept and the canvas, its context and every image were available |
| Session.NothingCaptured | src/components/photo-booth.tsx:281-285 | a run with no image ends capturing and does not start processing |
| Session.RunEndsIdle | src/components/photo-booth.tsx:236-239 | with the canvas and its context present, a run always ends with neither flag set |
| Session.MissingContextKeepsCapturing | src/components/photo-booth.tsx:172-180 | when the canvas or its context is missing, the merge returns before `finally`, so capturing stays on |
| Session.DeliveryOutcome | src/components/photo-booth.tsx:150-166 | the modal opens iff the upload is accepted and the QR code is made, with that code and the strip. Otherwise the same data URL is downloaded and the modal state is untouched |
| Session.CloseModalClears | src/components/photo-booth.tsx:288-293 | closing the modal clears it, the final image, the QR code and the captured images, and nothing else |
| Session.Booth.constructor | src/components/photo-booth.tsx:30-39 | the initial state: 3 photos, no flags, no countdown, no images, no modal |
| Session.Booth.SetCountdown | src/components/photo-booth.tsx:265 | the countdown display takes the value and the value is recorded as an event |
| Session.Booth.CountDown | src/components/photo-booth.tsx:263-268 | one countdown records timer, …, 1 and then a clear, and leaves the display cleared |
| Session.Booth.CaptureShots | src/components/photo-booth.tsx:259-279 | the loop keeps exactly the non-null captures in order and records the whole session's events, each capture after its shot's countdown and clear |
| Session.Booth.TakeShot | src/components/photo-booth.tsx:262-278 | one iteration records exactly shot i's events (countdown, clear, capture), leaves the display cleared, and keeps the capture's image if there is one |
| Session.Booth.KeepShot | src/components/photo-booth.tsx:273-277 | called only with the display cleared; records the capture, appends a non-null result to the kept images and shows them, and leaves the images alone for a null one |
| Session.Booth.StartCapture | src/components/photo-booth.tsx:247-286 | without a stream, nothing changes. Otherwise capturing starts, the images are reset, and the loop runs. Then the kept images are merged if there are any, else capturing ends (`Started`) |
| Session.Booth.MergeAndProcess | src/components/photo-booth.tsx:171-240 | with no images or no canvas, nothing changes. With no 2D context, only isProcessing is cleared. Otherwise the strip is delivered unless an image fails to load, and both flags are cleared (`Merged`) |
| Session.Booth.UploadToDrive | src/components/photo-booth.tsx:132-169 | one request body is posted. Then either the QR code, the final image and the open modal are set, or one download of the same data URL is added (`Delivered`) |
| Session.Booth.PostBody | src/components/photo-booth.tsx:137-146 | exactly one request body is added to the posted requests, and nothing else changes |
| Session.Booth.ShowOutcome | src/components/photo-booth.tsx:150-166 | a remote outcome sets the QR code and the final image and opens the modal; a local one adds one download (`Settled`) |
| Session.Booth.CloseModal | src/components/photo-booth.tsx:288-293 | the modal, the final image, the QR code and the captured images are cleared, and nothing else changes (`Closed`) |

## Left out

- Webcam acquisition and teardown (`getUserMedia`, stopping tracks) are device I/O. Whether a stream
  exists is the field `hasStream`. The `startWebcam` retry after a start without a stream is not
  modelled.
- Rendering is presentation only and is not modelled. This covers the JSX, the dialog, the
  photo-count menu and the toasts. `numPhotos` changes only through that menu, so it is a field that
  no modelled method changes.
- Timing is modelled as discrete steps. The one-second countdown delays, the 50 ms and 500 ms pauses
  and the 300 ms flash (`triggerFlash`, `isFlashing`) are left out.
- Canvas pixel work and encoding are foreign code. This covers `drawImage`, `fillRect`, `fillText`,
  fonts, PNG capture and JPEG encoding at quality 0.9. A capture result is a `Frame` given in
  `shots`, and the encoded strip is `MergeEnv.render`. The canvas element's own width and height are
  not part of the state.
- `fetch` to the upload service and the QR library are network and foreign calls. They are the
  values `Upload` and `qrCode`. `json.message` only feeds a log line, so it is dropped. A `fileUrl`
  that is not a string is not modelled.
- `new Date().toISOString()` is a clock, so timestamps are parameters.
- Floating-point rounding is not modelled, and neither is the truncation when a non-integer value is
  assigned to `canvas.width` or `canvas.height`. Crop and layout use exact reals.
- The debug `alert` effect is not modelled.
- The check `loadedImages.length === 0` after loading can never hold, because `images` is non-empty
  at that point. It is not modelled.
- `handleMergeAndProcess` is started without `await`. The start button is disabled while it runs,
  so the model runs it to completion inside `StartCapture`.
- Session.Booth.StartCapture: each shot's frame is an input rather than the result of calling
  `Crop.CapturePhoto`. The crop rectangle reaches the loaded image only through the foreign canvas
  encoding.
- Layout.ComputeLayout: takes numPhotos as a parameter. The effect has an empty dependency list, so
  it runs once at mount with the initial value 3.
- Strip.FramesDisjoint and Strip.FramesInsideCanvas: they take every frame to be W×H, the first
  image's size. The code draws each image at its own natural size while the canvas and the
  y steps use the first one; images of other sizes may overlap or be clipped, and the model
  states nothing about that case (`Strip.UniformImagesFit` covers the equal-size case).

## Findings

| source | as written | input that shows it | evidently intended | confidence | as-written member | corrected member |
|---|---|---|---|---|---|---|
| src/components/photo-booth.tsx:93-99 | every frame with width ≥ height takes the "landscape" branch and gets width h·4/3 | a 480×480 frame: sourceX = −80 and sourceWidth = 640, past both edges of the frame | keep the full height only for frames at least 4:3 wide, and keep the full width otherwise, so the rectangle always lies inside the frame | medium; not executed | Crop.SquareFrameOverruns | Crop.IntendedRectFits |
