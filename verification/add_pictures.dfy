/**
  The index-based picture list of `components/add-pictures.tsx`: selected
  files are appended without validation or cap, and `removeImage(index)` is
  `Array.prototype.splice(index, 1)` on a copy.
 */
module AddPictures {
  import opened Strings
  import opened ImageUtils

  const UploadedStatus: string := "uploaded"

  /** One entry of the list; `url` is the object URL created for the file. */
  datatype Picture = Picture(file: FileInfo, name: string, size: nat, mime: string, url: string, status: string)

  function MakePicture(file: FileInfo, url: string): (p: Picture)
    ensures p.file == file && p.name == file.name && p.size == file.size && p.mime == file.mime
    ensures p.url == url && p.status == UploadedStatus
  {
    Picture(file, file.name, file.size, file.mime, url, UploadedStatus)
  }

  /**
    `handleFileInputChange`: the list reported to `onImagesChange`, or `None`
    when the selection is empty and nothing is reported. `urls[k]` is the
    object URL created for `files[k]`.
   */
  function HandleFileInputChange(images: seq<Picture>, files: seq<FileInfo>, urls: seq<string>): (r: Option<seq<Picture>>)
    requires |urls| == |files|
    ensures r.None? <==> |files| == 0
    ensures r.Some? ==> |r.value| == |images| + |files| && r.value[..|images|] == images
    ensures r.Some? ==> forall k :: 0 <= k < |files| ==> r.value[|images| + k] == MakePicture(files[k], urls[k])
  {
    if |files| == 0 then None
    else Some(images + seq(|files|, k requires 0 <= k < |files| => MakePicture(files[k], urls[k])))
  }

  /** `removeImage(index)`: `splice(index, 1)` on a copy of the list. */
  function RemoveImage(images: seq<Picture>, index: int): (r: seq<Picture>)
    ensures 0 <= index < |images| ==> multiset(r) + multiset{images[index]} == multiset(images)
    ensures index >= |images| ==> r == images
  {
    var r := SpliceOne(images, index);
    if 0 <= index < |images| then
      assert r == images[..index] + images[index + 1..];
      assert images == images[..index] + [images[index]] + images[index + 1..];
      r
    else r
  }

  /**
    An index inside the list removes exactly that entry, the rest keeping
    their order; an index past the end changes nothing; a negative index
    counts from the end.
   */
  lemma RemoveImageExactlyOne(images: seq<Picture>, index: int)
    ensures 0 <= index < |images| ==>
      var r := RemoveImage(images, index);
      |r| == |images| - 1 && r[..index] + [images[index]] + r[index..] == images
    ensures index >= |images| ==> RemoveImage(images, index) == images
    ensures -|images| <= index < 0 ==> RemoveImage(images, index) == RemoveImage(images, |images| + index)
  {
    if 0 <= index < |images| {
      var r := RemoveImage(images, index);
      assert r[..index] == images[..index];
      assert r[index..] == images[index + 1..];
      assert images == images[..index] + [images[index]] + images[index + 1..];
    }
  }

  /** Removing the element just appended at the end gives back the list before the append. */
  lemma AppendThenRemoveLast(images: seq<Picture>, file: FileInfo, url: string)
    ensures RemoveImage(HandleFileInputChange(images, [file], [url]).value, |images|) == images
  {
    var after := HandleFileInputChange(images, [file], [url]).value;
    assert after == images + [MakePicture(file, url)];
    assert after[..|images|] == images;
  }
}
