/**
 * The delivery step `uploadToDrive`: the data URL of the merged image is
 * split into a MIME type and a base64 payload with JavaScript string
 * operations, posted to the upload service, and the reply decides between
 * a remote result (a QR code for the stored file, shown in the modal) and
 * the local fallback (the same data URL downloaded to the device).
 */
module Delivery {
  import opened Opt

  /** Leading text of every downloaded or uploaded file name. */
  const FilePrefix: string := "PicClick-booth-"
  const FileSuffix: string := ".jpg"

  // ---------------------------------------------------------------------
  // JavaScript string operations, with their edge cases.
  // ---------------------------------------------------------------------

  /** `s.indexOf(c)`: the first position of c, or -1 when c does not occur. */
  function IndexOf(s: string, c: char): (i: int)
    ensures -1 <= i < |s|
    ensures i >= 0 ==> s[i] == c && c !in s[..i]
    ensures i == -1 <==> c !in s
    decreases |s|
  {
    if s == [] then -1
    else if s[0] == c then 0
    else
      var j := IndexOf(s[1..], c);
      assert s[1..][..j + 1] == s[1..j + 2] by { if j >= 0 { assert j + 2 <= |s|; } }
      if j < 0 then -1 else j + 1
  }

  /** The contract of IndexOf pins its value down: the first occurrence is unique. */
  lemma IndexOfAt(s: string, c: char, i: nat)
    requires i < |s| && s[i] == c && c !in s[..i]
    ensures IndexOf(s, c) == i
  {
  }

  /** Clamps a `substring` argument into 0 ..= n. */
  function Clamp(x: int, n: nat): (r: nat)
    ensures r <= n
    ensures 0 <= x <= n ==> r == x
  {
    if x < 0 then 0 else if x > n then n else x
  }

  /**
   * `s.substring(start, end)`: both indices are clamped to the string, and
   * they are swapped when start is past end.
   */
  function Substring(s: string, start: int, end: int): (r: string)
    ensures |r| <= |s|
    ensures 0 <= start <= end <= |s| ==> r == s[start..end]
    ensures 0 <= end <= start <= |s| ==> r == s[end..start]
    ensures end < 0 && 0 <= start <= |s| ==> r == s[..start]
    ensures start < 0 && 0 <= end <= |s| ==> r == s[..end]
    ensures |s| < end && 0 <= start <= |s| ==> r == s[start..]
  {
    var a, b := Clamp(start, |s|), Clamp(end, |s|);
    if a <= b then s[a..b] else s[b..a]
  }

  /** The text of t up to its first c (all of t when c does not occur). */
  function UpTo(t: string, c: char): (r: string)
    ensures c !in r
    ensures r <= t
    ensures c in t ==> |r| < |t| && t[|r|] == c
    ensures c !in t ==> r == t
  {
    var i := IndexOf(t, c);
    if i < 0 then t else t[..i]
  }

  // ---------------------------------------------------------------------
  // Splitting the data URL.
  // ---------------------------------------------------------------------

  /** `dataUrl.substring(dataUrl.indexOf(":") + 1, dataUrl.indexOf(";"))` */
  function MimeType(dataUrl: string): (r: string)
    ensures |r| <= |dataUrl|
  {
    Substring(dataUrl, IndexOf(dataUrl, ':') + 1, IndexOf(dataUrl, ';'))
  }

  /**
   * `dataUrl.split(",")[1]`: the field after the first comma, up to the
   * second comma; undefined when there is no comma.
   */
  function Base64Payload(dataUrl: string): (r: Option<string>)
    ensures r.None? <==> ',' !in dataUrl
    ensures r.Some? ==> ',' !in r.value
  {
    var i := IndexOf(dataUrl, ',');
    if i < 0 then None else Some(UpTo(dataUrl[i + 1..], ','))
  }

  /** The data URL a canvas produces for a MIME type and a base64 payload. */
  function DataUrl(mime: string, payload: string): string {
    "data:" + mime + ";base64," + payload
  }

  /**
   * Parsing inverts DataUrl: the MIME type and the payload are recovered
   * whenever the MIME type holds none of ':', ';', ',' and the payload no
   * ',' (base64 text never does).
   */
  lemma ParseDataUrl(mime: string, payload: string)
    requires ':' !in mime && ';' !in mime && ',' !in mime
    requires ',' !in payload
    ensures MimeType(DataUrl(mime, payload)) == mime
    ensures Base64Payload(DataUrl(mime, payload)) == Some(payload)
  {
    var u := DataUrl(mime, payload);
    var m := |mime|;
    assert u[..4] == "data";
    assert u[4] == ':';
    IndexOfAt(u, ':', 4);
    assert u[5..5 + m] == mime;
    assert u[5 + m] == ';';
    assert u[..5 + m] == "data:" + mime;
    IndexOfAt(u, ';', 5 + m);
    assert u[5 + m + 7] == ',';
    assert u[..5 + m + 7] == "data:" + mime + ";base64";
    IndexOfAt(u, ',', 5 + m + 7);
    assert u[5 + m + 8..] == payload;
  }

  /** The example of a canvas JPEG: "data:image/jpeg;base64,XYZ". */
  lemma ParseJpegExample()
    ensures MimeType("data:image/jpeg;base64,XYZ") == "image/jpeg"
    ensures Base64Payload("data:image/jpeg;base64,XYZ") == Some("XYZ")
  {
    assert "data:image/jpeg;base64,XYZ" == DataUrl("image/jpeg", "XYZ");
    ParseDataUrl("image/jpeg", "XYZ");
  }

  /**
   * When the first ':' comes before the first ';', the MIME type is the text
   * strictly between them; with no ':' at all it runs from the start to ';'.
   */
  lemma MimeTypeBetween(dataUrl: string)
    ensures var i, j := IndexOf(dataUrl, ':'), IndexOf(dataUrl, ';');
      0 <= i < j ==> MimeType(dataUrl) == dataUrl[i + 1..j]
    ensures ':' !in dataUrl && ';' in dataUrl ==> MimeType(dataUrl) == dataUrl[..IndexOf(dataUrl, ';')]
  {
  }

  /**
   * The payload is the text right after the first comma, and it stops at the
   * second comma when there is one.
   */
  lemma Base64PayloadAfterComma(dataUrl: string)
    requires ',' in dataUrl
    ensures var i, r := IndexOf(dataUrl, ','), Base64Payload(dataUrl).value;
      r <= dataUrl[i + 1..] &&
      (',' in dataUrl[i + 1..] ==> |r| < |dataUrl| - i - 1 && dataUrl[i + 1 + |r|] == ',') &&
      (',' !in dataUrl[i + 1..] ==> r == dataUrl[i + 1..])
  {
  }

  /**
   * Without any ';' the end index is -1, which clamps to 0 and is swapped:
   * the "MIME type" becomes everything up to and including the first ':'.
   */
  lemma MimeTypeWithoutSemicolon(dataUrl: string)
    requires ';' !in dataUrl && ':' in dataUrl
    ensures MimeType(dataUrl) == dataUrl[..IndexOf(dataUrl, ':') + 1]
  {
  }

  // ---------------------------------------------------------------------
  // The upload and its outcome.
  // ---------------------------------------------------------------------

  /** The JSON body posted to the upload service. */
  datatype UploadBody = UploadBody(filename: string, mimeType: string, base64: Option<string>)

  /** The parsed JSON reply of the upload service. */
  datatype Reply = Reply(status: string, fileUrl: Option<string>)

  /** What the POST came to: a parsed reply, or a thrown error (network failure, body not JSON). */
  datatype Upload = Answered(reply: Reply) | Threw

  /** Exactly one of the two results of a delivery. */
  datatype Delivery =
    | Remote(fileUrl: string, qrCode: string, finalImage: string)
    | Local(href: string, filename: string)

  /** A download triggered on the device. */
  datatype Download = Download(href: string, filename: string)

  function FileName(stamp: string): string { FilePrefix + stamp + FileSuffix }

  /** The body sent for a data URL, with the timestamp taken when it is built. */
  function RequestBody(dataUrl: string, stamp: string): (b: UploadBody)
    ensures b.filename == FileName(stamp)
    ensures forall m, p :: dataUrl == DataUrl(m, p) && ':' !in m && ';' !in m && ',' !in m && ',' !in p ==>
              b.mimeType == m && b.base64 == Some(p)
  {
    forall m, p | dataUrl == DataUrl(m, p) && ':' !in m && ';' !in m && ',' !in m && ',' !in p
      ensures MimeType(dataUrl) == m && Base64Payload(dataUrl) == Some(p)
    {
      ParseDataUrl(m, p);
    }
    UploadBody(FileName(stamp), MimeType(dataUrl), Base64Payload(dataUrl))
  }

  /** JavaScript truthiness of the reply's `fileUrl`. */
  predicate Truthy(u: Option<string>) { u.Some? && u.value != "" }

  /** `json.status === "success" && json.fileUrl` */
  predicate Accepted(up: Upload) {
    up.Answered? && up.reply.status == "success" && Truthy(up.reply.fileUrl)
  }

  /**
   * The outcome of `uploadToDrive`. qrCode is the QR library's answer for a
   * URL (None when it throws); stamp is the time taken for the download's
   * file name. A reply that is not accepted throws inside the `try`, and
   * every throw ends in the local download of the same data URL.
   */
  function Deliver(dataUrl: string, up: Upload, qrCode: string -> Option<string>, stamp: string): (d: Delivery)
    ensures d.Remote? <==> Accepted(up) && qrCode(up.reply.fileUrl.value).Some?
    ensures d.Remote? ==> d.fileUrl == up.reply.fileUrl.value && d.fileUrl != "" &&
                          d.qrCode == qrCode(d.fileUrl).value && d.finalImage == dataUrl
    ensures d.Local? ==> d.href == dataUrl && d.filename == FileName(stamp)
  {
    if Accepted(up) then
      match qrCode(up.reply.fileUrl.value)
      case Some(qr) => Remote(up.reply.fileUrl.value, qr, dataUrl)
      case None => Local(dataUrl, FileName(stamp))
    else
      Local(dataUrl, FileName(stamp))
  }

  /** An upload service that always fails yields the local copy of exactly the merged bytes. */
  lemma FailingUploadFallsBack(dataUrl: string, up: Upload, qrCode: string -> Option<string>, stamp: string)
    requires up.Threw? || up.reply.status != "success"
    ensures Deliver(dataUrl, up, qrCode, stamp) == Local(dataUrl, FileName(stamp))
  {
  }

  /**
   * A successful upload whose URL the QR library encodes yields the remote
   * result carrying exactly that URL and the code for it.
   */
  lemma SuccessfulUploadIsRemote(dataUrl: string, url: string, qrCode: string -> Option<string>, stamp: string)
    requires url != "" && qrCode(url).Some?
    ensures Deliver(dataUrl, Answered(Reply("success", Some(url))), qrCode, stamp)
            == Remote(url, qrCode(url).value, dataUrl)
  {
  }

  /** A "success" reply without a usable URL is still the local fallback. */
  lemma SuccessWithoutUrlFallsBack(dataUrl: string, url: Option<string>, qrCode: string -> Option<string>, stamp: string)
    requires !Truthy(url)
    ensures Deliver(dataUrl, Answered(Reply("success", url)), qrCode, stamp).Local?
  {
  }
}
