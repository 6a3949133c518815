/**
  The image collection of `hooks/use-multi-file-upload.ts`: batch upload
  with a file-count cap, per-id progress and failure updates, removal by id
  and clearing.

  React's `setImages(prev => ...)` updates are pure functions from the old
  collection to the new one; toasts become a list of notices.
 */
module MultiFileUpload {
  import opened Strings
  import opened ImageUtils

  /** `useMultiFileUpload(maxFiles = 10)` */
  const DefaultMaxFiles: nat := 10

  const FailedMessage: string := "Upload failed"

  /** The toasts the hook raises. */
  datatype Notice =
    | TooManyFiles(maxFiles: nat)
    | UploadFailed(reason: Reason)
    | UploadSucceeded(name: string)
    | TransferFailed(name: string)

  /** What the browser and uuid supply for one accepted file: its id, object URL and creation time. */
  datatype Minted = Minted(id: string, url: string, now: int)

  /** The entry appended for an accepted file: progress 0 and still uploading. */
  function NewEntry(file: FileInfo, minted: Minted): (img: UploadedImage)
    ensures img.id == minted.id && img.url == minted.url
    ensures img.name == file.name && img.size == file.size && img.mime == file.mime
    ensures img.progress == 0.0 && img.status == Uploading
  {
    CreateUploadedImage(file, minted.id, minted.url, minted.now).(progress := 0.0, status := Uploading)
  }

  /** The files of a batch that pass validation, paired with their minted values, in order. */
  function AcceptedEntries(files: seq<FileInfo>, minted: seq<Minted>): seq<UploadedImage>
    requires |minted| == |files|
  {
    if |files| == 0 then []
    else
      var rest := AcceptedEntries(files[1..], minted[1..]);
      if ValidateFile(files[0]).Valid? then [NewEntry(files[0], minted[0])] + rest else rest
  }

  /** One refusal notice per invalid file of the batch, in order. */
  function Refusals(files: seq<FileInfo>): seq<Notice> {
    if |files| == 0 then []
    else
      var rest := Refusals(files[1..]);
      match ValidateFile(files[0])
      case Valid => rest
      case Invalid(reason) => [UploadFailed(reason)] + rest
  }

  function CountValid(files: seq<FileInfo>): nat {
    if |files| == 0 then 0 else (if ValidateFile(files[0]).Valid? then 1 else 0) + CountValid(files[1..])
  }

  lemma {:induction false} AcceptedCount(files: seq<FileInfo>, minted: seq<Minted>)
    requires |minted| == |files|
    ensures |AcceptedEntries(files, minted)| == CountValid(files)
    ensures |Refusals(files)| == |files| - CountValid(files)
  {
    if |files| > 0 {
      AcceptedCount(files[1..], minted[1..]);
    }
  }

  /**
    `handleFilesUpload`, up to the first `await` of every file: a batch that
    would take the collection over `maxFiles` is refused whole (invalid files
    count towards the cap); otherwise every valid file is appended with
    progress 0 and status uploading, and every invalid one is skipped with
    its own notice. `minted[k]` is what file k would receive if accepted.
   */
  method HandleFilesUpload(images: seq<UploadedImage>, files: seq<FileInfo>, minted: seq<Minted>, maxFiles: nat)
    returns (result: seq<UploadedImage>, notices: seq<Notice>)
    requires |minted| == |files|
    ensures |images| + |files| > maxFiles ==> result == images && notices == [TooManyFiles(maxFiles)]
    ensures |images| + |files| <= maxFiles ==>
      result == images + AcceptedEntries(files, minted) && notices == Refusals(files)
    ensures |images| + |files| <= maxFiles ==> |result| == |images| + CountValid(files)
    ensures |result| >= |images| && result[..|images|] == images
    ensures forall k :: |images| <= k < |result| ==> result[k].status == Uploading && result[k].progress == 0.0
  {
    if |images| + |files| > maxFiles {
      return images, [TooManyFiles(maxFiles)];
    }
    result, notices := images, [];
    var i := 0;
    while i < |files|
      invariant 0 <= i <= |files|
      invariant result == images + AcceptedEntries(files[..i], minted[..i])
      invariant notices == Refusals(files[..i])
      invariant forall k :: |images| <= k < |result| ==> result[k].status == Uploading && result[k].progress == 0.0
    {
      AcceptedSnoc(files[..i], minted[..i], files[i], minted[i]);
      assert files[..i + 1] == files[..i] + [files[i]];
      assert minted[..i + 1] == minted[..i] + [minted[i]];
      match ValidateFile(files[i]) {
        case Valid =>
          result := result + [NewEntry(files[i], minted[i])];
        case Invalid(reason) =>
          notices := notices + [UploadFailed(reason)];
      }
      i := i + 1;
    }
    assert files[..i] == files && minted[..i] == minted;
    AcceptedCount(files, minted);
  }

  /** Extending a batch by one file extends its entries or its refusals. */
  lemma {:induction false} AcceptedSnoc(files: seq<FileInfo>, minted: seq<Minted>, f: FileInfo, x: Minted)
    requires |minted| == |files|
    ensures AcceptedEntries(files + [f], minted + [x])
      == AcceptedEntries(files, minted) + (if ValidateFile(f).Valid? then [NewEntry(f, x)] else [])
    ensures Refusals(files + [f])
      == Refusals(files) + (match ValidateFile(f) case Valid => [] case Invalid(r) => [UploadFailed(r)])
  {
    if |files| > 0 {
      assert (files + [f])[1..] == files[1..] + [f];
      assert (minted + [x])[1..] == minted[1..] + [x];
      AcceptedSnoc(files[1..], minted[1..], f, x);
    } else {
      assert files + [f] == [f];
      assert minted + [x] == [x];
    }
  }

  /**
    `updateImageProgress`: every entry with this id takes the reported
    progress, and is complete exactly when the progress is 100; nothing else
    changes.
   */
  function UpdateImageProgress(images: seq<UploadedImage>, id: string, progress: real): (r: seq<UploadedImage>)
    ensures |r| == |images|
    ensures forall k :: 0 <= k < |images| && images[k].id != id ==> r[k] == images[k]
    ensures forall k :: 0 <= k < |images| && images[k].id == id ==>
      r[k] == images[k].(progress := progress, status := if progress == 100.0 then Complete else Uploading)
  {
    if |images| == 0 then []
    else
      var img := images[0];
      var head := if img.id == id then img.(progress := progress, status := if progress == 100.0 then Complete else Uploading) else img;
      [head] + UpdateImageProgress(images[1..], id, progress)
  }

  /** The collection after each report of a simulated upload has been applied in turn. */
  function ApplyReports(images: seq<UploadedImage>, id: string, reports: seq<real>): (r: seq<UploadedImage>)
    ensures |r| == |images|
    decreases |reports|
  {
    if |reports| == 0 then images
    else ApplyReports(UpdateImageProgress(images, id, reports[0]), id, reports[1..])
  }

  /**
    A finished simulated upload leaves every entry with that id complete at
    100, and every other entry exactly as it was.
   */
  lemma {:induction false} ApplyReportsCompletes(images: seq<UploadedImage>, id: string, reports: seq<real>)
    requires |reports| > 0 && reports[|reports| - 1] == 100.0
    ensures var r := ApplyReports(images, id, reports);
      forall k :: 0 <= k < |images| ==>
        if images[k].id == id then r[k].progress == 100.0 && r[k].status == Complete && r[k].id == id
        else r[k] == images[k]
    decreases |reports|
  {
    var next := UpdateImageProgress(images, id, reports[0]);
    if |reports| > 1 {
      ApplyReportsCompletes(next, id, reports[1..]);
    }
  }

  /**
    The whole life of one accepted file: appended as uploading, then a
    simulated upload whose steps reach 100 leaves it complete at 100, with
    the entries that were there before untouched (ids are unique).
   */
  lemma UploadLifecycle(images: seq<UploadedImage>, file: FileInfo, minted: Minted, steps: seq<real>)
    requires ValidateFile(file).Valid?
    requires forall k :: 0 <= k < |images| ==> images[k].id != minted.id
    requires forall k :: 0 <= k < |steps| ==> 0.0 <= steps[k] < 15.0
    requires Finished(0.0, steps)
    ensures var after := ApplyReports(images + [NewEntry(file, minted)], minted.id, SimulateImageUpload(steps));
      && after[..|images|] == images
      && after[|images|].id == minted.id
      && after[|images|].status == Complete && after[|images|].progress == 100.0
  {
    var before := images + [NewEntry(file, minted)];
    ReportsFinishIff(0.0, steps);
    ApplyReportsCompletes(before, minted.id, SimulateImageUpload(steps));
    var after := ApplyReports(before, minted.id, SimulateImageUpload(steps));
    assert forall k :: 0 <= k < |images| ==> before[k] == images[k];
    assert after[..|images|] == images;
  }

  /**
    The failure branch: every entry with this id gets status error and the
    message "Upload failed"; nothing else changes.
   */
  function MarkUploadFailed(images: seq<UploadedImage>, id: string): (r: seq<UploadedImage>)
    ensures |r| == |images|
    ensures forall k :: 0 <= k < |images| && images[k].id != id ==> r[k] == images[k]
    ensures forall k :: 0 <= k < |images| && images[k].id == id ==>
      r[k] == images[k].(error := Some(FailedMessage), status := Error)
  {
    if |images| == 0 then []
    else
      var img := images[0];
      var head := if img.id == id then img.(error := Some(FailedMessage), status := Error) else img;
      [head] + MarkUploadFailed(images[1..], id)
  }

  /** The first entry with this id, as `Array.prototype.find` returns it. */
  function Find(images: seq<UploadedImage>, id: string): (r: Option<UploadedImage>)
    ensures r.Some? <==> exists k :: 0 <= k < |images| && images[k].id == id
    ensures r.Some? ==> r.value in images && r.value.id == id
  {
    if |images| == 0 then None
    else if images[0].id == id then Some(images[0])
    else Find(images[1..], id)
  }

  /** The entries whose id is not `id`, in order. */
  function WithoutId(images: seq<UploadedImage>, id: string): (r: seq<UploadedImage>)
    ensures |r| <= |images|
    ensures forall k :: 0 <= k < |r| ==> r[k].id != id && r[k] in images
    ensures (forall k :: 0 <= k < |images| ==> images[k].id != id) ==> r == images
    ensures forall x :: x in images && x.id != id ==> x in r
    ensures forall x: UploadedImage :: x.id != id ==> multiset(r)[x] == multiset(images)[x]
  {
    if |images| == 0 then []
    else
      var rest := WithoutId(images[1..], id);
      assert images == [images[0]] + images[1..];
      assert multiset(images) == multiset{images[0]} + multiset(images[1..]);
      if images[0].id == id then rest
      else
        assert multiset([images[0]] + rest) == multiset{images[0]} + multiset(rest);
        [images[0]] + rest
  }

  lemma {:induction false} WithoutIdOrdered(images: seq<UploadedImage>, id: string)
    ensures IsSubsequence(WithoutId(images, id), images)
  {
    if |images| > 0 {
      WithoutIdOrdered(images[1..], id);
      var rest := WithoutId(images[1..], id);
      if images[0].id == id {
        SubsequenceCons(rest, images[1..], images[0]);
      } else {
        assert ([images[0]] + rest)[1..] == rest;
      }
    }
  }

  /** `removeImage`: the new collection and the object URL revoked, if any. */
  datatype Removal = Removal(images: seq<UploadedImage>, revoked: Option<string>)

  /**
    `removeImage`: the URL of the first entry with that id is revoked when it
    is non-empty, and every entry with that id is dropped; the others keep
    their order. An absent id changes nothing.
   */
  function RemoveImage(images: seq<UploadedImage>, id: string): (r: Removal)
    ensures forall k :: 0 <= k < |r.images| ==> r.images[k].id != id
    ensures forall x :: x in images && x.id != id ==> x in r.images
    ensures IsSubsequence(r.images, images)
    ensures forall x: UploadedImage :: x.id != id ==> multiset(r.images)[x] == multiset(images)[x]
    ensures Find(images, id).None? ==> r.images == images && r.revoked == None
    ensures r.revoked.Some? <==> Find(images, id).Some? && Find(images, id).value.url != ""
    ensures r.revoked.Some? ==> r.revoked.value == Find(images, id).value.url
  {
    WithoutIdOrdered(images, id);
    var found := Find(images, id);
    var revoked := if found.Some? && found.value.url != "" then Some(found.value.url) else None;
    Removal(WithoutId(images, id), revoked)
  }

  /** Removing the same id twice is the same as removing it once, and the second removal revokes nothing. */
  lemma RemoveImageIdempotent(images: seq<UploadedImage>, id: string)
    ensures var once := RemoveImage(images, id).images;
      RemoveImage(once, id).images == once && RemoveImage(once, id).revoked == None
  {
  }

  /** `clearAllImages`: the new (empty) collection and the object URLs revoked on the way. */
  datatype Clearing = Clearing(images: seq<UploadedImage>, revoked: seq<string>)

  /**
    `clearAllImages`: every `blob:` URL of the collection is revoked, in
    order and once per image, and the collection is emptied.
   */
  function ClearAllImages(images: seq<UploadedImage>): (r: Clearing)
    ensures r.images == []
    ensures |r.revoked| == BlobCount(images) && IsSubsequence(r.revoked, Urls(images))
    ensures forall u :: u in r.revoked ==> StartsWith(u, "blob:")
    ensures forall k :: 0 <= k < |images| && StartsWith(images[k].url, "blob:") ==> images[k].url in r.revoked
  {
    Clearing([], RevokedUrls(images))
  }

  /**
    The unmount cleanup as meant: every `blob:` URL of the collection live
    at teardown is revoked, in order and once per image.
   */
  function Unmount(images: seq<UploadedImage>): (revoked: seq<string>)
    ensures |revoked| == BlobCount(images) && IsSubsequence(revoked, Urls(images))
    ensures forall u :: u in revoked ==> StartsWith(u, "blob:")
    ensures forall k :: 0 <= k < |images| && StartsWith(images[k].url, "blob:") ==> images[k].url in revoked
  {
    RevokedUrls(images)
  }

  /**
    The unmount cleanup as written: the effect is registered with no
    dependencies, so its cleanup keeps the collection of the first render,
    which is empty, whatever `images` holds at teardown.
   */
  function UnmountAsWritten(images: seq<UploadedImage>): (revoked: seq<string>)
    ensures revoked == []
  {
    var firstRender: seq<UploadedImage> := [];
    RevokedUrls(firstRender)
  }

  /**
    A live `blob:` URL at teardown is left unrevoked as written, while the
    intended cleanup revokes it, just as `clearAllImages` would.
   */
  lemma UnmountLeaksUrls(images: seq<UploadedImage>, k: nat)
    requires k < |images| && StartsWith(images[k].url, "blob:")
    ensures images[k].url !in UnmountAsWritten(images)
    ensures images[k].url in Unmount(images)
    ensures Unmount(images) == ClearAllImages(images).revoked
  {
  }

  /** Clearing an already cleared collection revokes nothing more. */
  lemma ClearAllImagesTwice(images: seq<UploadedImage>)
    ensures ClearAllImages(ClearAllImages(images).images) == Clearing([], [])
  {
  }

  /**
    Removing an image and then clearing revokes, between the two calls, the
    removed image's `blob:` URL and every other `blob:` URL still present.
   */
  lemma RemoveThenClearRevokes(images: seq<UploadedImage>, id: string, k: nat)
    requires k < |images| && images[k].id != id && StartsWith(images[k].url, "blob:")
    ensures images[k].url in ClearAllImages(RemoveImage(images, id).images).revoked
  {
    var rest := RemoveImage(images, id).images;
    assert images[k] in rest;
    var j :| 0 <= j < |rest| && rest[j] == images[k];
  }

  /**
    `handleDrop` as it is meant to work: a non-empty drop goes through the
    current `handleFilesUpload`, so the cap counts the images already there.
   */
  function HandleDrop(images: seq<UploadedImage>, files: seq<FileInfo>, minted: seq<Minted>, maxFiles: nat): (r: seq<UploadedImage>)
    requires |minted| == |files|
    ensures |images| <= maxFiles ==> |r| <= maxFiles
    ensures |files| == 0 || |images| + |files| > maxFiles ==> r == images
    ensures |r| >= |images| && r[..|images|] == images
  {
    if |files| == 0 || |images| + |files| > maxFiles then images
    else
      AcceptedCount(files, minted);
      images + AcceptedEntries(files, minted)
  }

  /**
    `handleDrop` as written: it is memoised with no dependencies, so it keeps
    calling the `handleFilesUpload` of the first render, whose collection is
    empty. The cap is checked against the batch alone, while the accepted
    files are appended to the current collection.
   */
  function HandleDropAsWritten(images: seq<UploadedImage>, files: seq<FileInfo>, minted: seq<Minted>, maxFiles: nat): (r: seq<UploadedImage>)
    requires |minted| == |files|
    ensures |files| == 0 || |files| > maxFiles ==> r == images
    ensures 0 < |files| <= maxFiles ==> |r| == |images| + CountValid(files)
    ensures |r| >= |images| && r[..|images|] == images
  {
    if |files| == 0 || |files| > maxFiles then images
    else
      AcceptedCount(files, minted);
      images + AcceptedEntries(files, minted)
  }

  /** With the collection full, a drop of one valid file goes past the cap as written and is refused as meant. */
  lemma DropOverflowsCap(images: seq<UploadedImage>, file: FileInfo, minted: Minted)
    requires |images| == DefaultMaxFiles && ValidateFile(file).Valid?
    ensures |HandleDropAsWritten(images, [file], [minted], DefaultMaxFiles)| == DefaultMaxFiles + 1
    ensures HandleDrop(images, [file], [minted], DefaultMaxFiles) == images
  {
    assert CountValid([file]) == 1;
  }
}
