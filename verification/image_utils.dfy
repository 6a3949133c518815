/**
  File validation, image-record creation, the simulated upload progress and
  object-URL revocation of `lib/image-utils.ts`.

  The uuid, the object URL and the clock that `createUploadedImage` reads
  are passed in; the random progress steps of `simulateImageUpload` are a
  sequence of increments chosen by the caller.
 */
module ImageUtils {
  import opened Strings

  /** The three upload states an image can be in. */
  datatype Status = Uploading | Complete | Error

  /** The parts of a browser `File` the application reads. */
  datatype FileInfo = FileInfo(name: string, size: nat, mime: string)

  /** An image in the upload collection. `progress` is a percentage. */
  datatype UploadedImage = UploadedImage(
    id: string,
    name: string,
    url: string,
    size: nat,
    mime: string,
    uploadedAt: int,
    progress: real,
    error: Option<string>,
    status: Status)

  /** Ten mebibytes. */
  const MaxFileSize: nat := 10 * 1024 * 1024

  /** Why a file was refused. */
  datatype Reason = TooLarge(size: nat) | NotAnImage

  datatype Validation = Valid | Invalid(reason: Reason)

  const SizeMessagePrefix: string := "File size exceeds 10MB limit"
  const TypeMessage: string := "Only image files are allowed"

  /**
    The size check runs first, so an oversized file of any type is refused
    for its size; a file of exactly the limit passes that check.
   */
  function ValidateFile(file: FileInfo): (r: Validation)
    ensures r.Valid? <==> file.size <= MaxFileSize && StartsWith(file.mime, "image/")
    ensures file.size > MaxFileSize ==> r == Invalid(TooLarge(file.size))
    ensures file.size <= MaxFileSize && !StartsWith(file.mime, "image/") ==> r == Invalid(NotAnImage)
    ensures file.size == 10485760 && StartsWith(file.mime, "image/") ==> r.Valid?
  {
    if file.size > MaxFileSize then Invalid(TooLarge(file.size))
    else if !StartsWith(file.mime, "image/") then Invalid(NotAnImage)
    else Valid
  }

  /**
    The user-facing text of a refusal. `formatSize` stands for
    `formatFileSize`, whose floating-point rendering is not modelled.
   */
  function Message(reason: Reason, formatSize: nat -> string): (m: string)
    ensures reason.TooLarge? ==> StartsWith(m, SizeMessagePrefix)
    ensures reason.NotAnImage? ==> m == TypeMessage
  {
    match reason
    case TooLarge(size) =>
      assert (SizeMessagePrefix + " (" + formatSize(size) + ")")[..|SizeMessagePrefix|] == SizeMessagePrefix;
      SizeMessagePrefix + " (" + formatSize(size) + ")"
    case NotAnImage => TypeMessage
  }

  /** An oversized file of a non-image type is reported for its size. */
  lemma SizeCheckFirst(file: FileInfo, formatSize: nat -> string)
    requires file.size > MaxFileSize && !StartsWith(file.mime, "image/")
    ensures ValidateFile(file).Invalid?
    ensures StartsWith(Message(ValidateFile(file).reason, formatSize), SizeMessagePrefix)
    ensures Message(ValidateFile(file).reason, formatSize) != TypeMessage
  {
  }

  /**
    `createUploadedImage`: a finished image record for `file`, with the
    given uuid, object URL and creation time.
   */
  function CreateUploadedImage(file: FileInfo, id: string, url: string, now: int): (img: UploadedImage)
    ensures img.name == file.name && img.size == file.size && img.mime == file.mime
    ensures img.id == id && img.url == url
    ensures img.progress == 100.0 && img.status == Complete && img.error == None
  {
    UploadedImage(id, file.name, url, file.size, file.mime, now, 100.0, None, Complete)
  }

  /**
    The progress values `simulateImageUpload` reports, starting from
    `progress`, when the random increments are `steps`: each tick adds the
    next step; once the running total reaches 100 the value 100 is reported
    and the simulation stops. If the steps run out first, the upload has not
    finished yet.
   */
  function Reports(progress: real, steps: seq<real>): (r: seq<real>)
    requires 0.0 <= progress < 100.0
    requires forall k :: 0 <= k < |steps| ==> 0.0 <= steps[k] < 15.0
    ensures |r| <= |steps|
    ensures forall i :: 0 <= i < |r| ==> progress <= r[i] <= 100.0
    ensures forall i, j :: 0 <= i < j < |r| ==> r[i] <= r[j]
    ensures forall i :: 0 <= i < |r| - 1 ==> r[i] < 100.0
    decreases |steps|
  {
    if |steps| == 0 then []
    else
      var next := progress + steps[0];
      if next >= 100.0 then [100.0]
      else [next] + Reports(next, steps[1..])
  }

  /** The running total reaches 100 within `steps`. */
  predicate Finished(progress: real, steps: seq<real>) {
    exists n | 0 < n <= |steps| :: progress + Sum(steps[..n]) >= 100.0
  }

  function Sum(steps: seq<real>): real {
    if |steps| == 0 then 0.0 else steps[0] + Sum(steps[1..])
  }

  /** Reaching 100 within `steps` means reaching it with the first step or within the rest. */
  lemma FinishedStep(progress: real, steps: seq<real>)
    requires |steps| > 0
    ensures Finished(progress, steps)
        <==> progress + steps[0] >= 100.0 || Finished(progress + steps[0], steps[1..])
  {
    var rest := steps[1..];
    if Finished(progress, steps) && progress + steps[0] < 100.0 {
      var n :| 0 < n <= |steps| && progress + Sum(steps[..n]) >= 100.0;
      assert steps[..n][1..] == rest[..n - 1];
      assert n > 1;
      assert progress + steps[0] + Sum(rest[..n - 1]) >= 100.0;
    }
    if Finished(progress + steps[0], rest) {
      var m :| 0 < m <= |rest| && progress + steps[0] + Sum(rest[..m]) >= 100.0;
      assert steps[..m + 1][1..] == rest[..m];
      assert progress + Sum(steps[..m + 1]) >= 100.0;
    }
    if progress + steps[0] >= 100.0 {
      assert steps[..1][1..] == [];
      assert progress + Sum(steps[..1]) >= 100.0;
    }
  }

  /**
    The last report is 100 exactly when the running total of the steps
    reaches 100; otherwise every step was reported and none reached it.
   */
  lemma {:induction false} ReportsFinishIff(progress: real, steps: seq<real>)
    requires 0.0 <= progress < 100.0
    requires forall k :: 0 <= k < |steps| ==> 0.0 <= steps[k] < 15.0
    ensures var r := Reports(progress, steps);
      (|r| > 0 && r[|r| - 1] == 100.0) <==> Finished(progress, steps)
    ensures !Finished(progress, steps) ==> |Reports(progress, steps)| == |steps|
    decreases |steps|
  {
    if |steps| > 0 {
      FinishedStep(progress, steps);
      var next := progress + steps[0];
      if next < 100.0 {
        ReportsFinishIff(next, steps[1..]);
      }
    }
  }

  /** `simulateImageUpload` from a fresh start. */
  function SimulateImageUpload(steps: seq<real>): (r: seq<real>)
    requires forall k :: 0 <= k < |steps| ==> 0.0 <= steps[k] < 15.0
    ensures forall i, j :: 0 <= i < j < |r| ==> r[i] <= r[j]
    ensures forall i :: 0 <= i < |r| - 1 ==> r[i] < 100.0
  {
    Reports(0.0, steps)
  }

  /** The images' URLs, in order. */
  function Urls(images: seq<UploadedImage>): (r: seq<string>)
    ensures |r| == |images|
    ensures forall k :: 0 <= k < |images| ==> r[k] == images[k].url
  {
    seq(|images|, k requires 0 <= k < |images| => images[k].url)
  }

  /** How many images carry a `blob:` URL. */
  function BlobCount(images: seq<UploadedImage>): nat {
    if |images| == 0 then 0
    else (if StartsWith(images[0].url, "blob:") then 1 else 0) + BlobCount(images[1..])
  }

  /**
    `revokeImageUrls`: the URLs revoked, which are exactly the `blob:` ones,
    in order: a subsequence of the images' URLs with one entry per `blob:` image.
   */
  function RevokedUrls(images: seq<UploadedImage>): (r: seq<string>)
    ensures |r| == BlobCount(images)
    ensures IsSubsequence(r, Urls(images))
    ensures forall u :: u in r ==> StartsWith(u, "blob:")
    ensures forall k :: 0 <= k < |images| && StartsWith(images[k].url, "blob:") ==> images[k].url in r
    ensures forall u :: u in r ==> exists k :: 0 <= k < |images| && images[k].url == u
  {
    if |images| == 0 then []
    else
      var rest := RevokedUrls(images[1..]);
      assert forall k :: 1 <= k < |images| ==> images[k] == images[1..][k - 1];
      assert Urls(images) == [images[0].url] + Urls(images[1..]);
      if StartsWith(images[0].url, "blob:") then
        assert ([images[0].url] + rest)[1..] == rest;
        [images[0].url] + rest
      else
        SubsequenceCons(rest, Urls(images[1..]), images[0].url);
        rest
  }
}
