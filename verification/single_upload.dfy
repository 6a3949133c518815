/**
  The single-slot uploader of `hooks/use-file-upload.ts`.

  The hook's `validateFile` and `createUploadedFile` come from a module that
  does not define them, so their results are inputs here: `check` is what
  validation said and `created` is the record creation would return.
 */
module SingleUpload {
  import opened Strings
  import opened ImageUtils

  /** An uploaded file record (the shape `app/page.tsx` declares). */
  datatype UploadedFile = UploadedFile(id: string, name: string, url: string, size: nat, mime: string)

  /** What the unseen validator returns. */
  datatype Check = Pass | Fail(message: string)

  datatype SlotNotice = UploadFailed(message: string) | Uploaded(name: string)

  /** One step of the hook: the new slot, the object URL revoked on the way, and the toast raised. */
  datatype Step = Step(slot: Option<UploadedFile>, revoked: Option<string>, notice: Option<SlotNotice>)

  /** The URL the hook would revoke for the current slot: only a present, non-empty one. */
  function LiveUrl(slot: Option<UploadedFile>): (r: Option<string>)
    ensures r.Some? <==> slot.Some? && slot.value.url != ""
    ensures r.Some? ==> r.value == slot.value.url
  {
    if slot.Some? && slot.value.url != "" then Some(slot.value.url) else None
  }

  /**
    `handleFileUpload`: a refused file leaves the slot as it was and raises
    "Upload failed" with the validator's message; an accepted one revokes the
    previous file's URL and takes the slot.
   */
  function HandleFileUpload(slot: Option<UploadedFile>, file: FileInfo, check: Check, created: UploadedFile): (r: Step)
    ensures check.Fail? ==> r.slot == slot && r.revoked == None && r.notice == Some(UploadFailed(check.message))
    ensures check.Pass? ==> r.slot == Some(created) && r.notice == Some(Uploaded(file.name))
    ensures check.Pass? ==> (r.revoked.Some? <==> slot.Some? && slot.value.url != "")
    ensures r.revoked.Some? ==> slot.Some? && r.revoked.value == slot.value.url
  {
    match check
    case Fail(message) => Step(slot, None, Some(UploadFailed(message)))
    case Pass => Step(Some(created), LiveUrl(slot), Some(Uploaded(file.name)))
  }

  /**
    `handleDrop` as it is meant to work: only the first dropped file is
    uploaded, through the current `handleFileUpload`, so a file it replaces
    has its URL revoked; an empty drop changes nothing. `check` and `created`
    belong to that first file.
   */
  function HandleDrop(slot: Option<UploadedFile>, files: seq<FileInfo>, check: Check, created: UploadedFile): (r: Step)
    ensures |files| == 0 ==> r == Step(slot, None, None)
    ensures |files| > 0 && check.Pass? ==> r.notice == Some(Uploaded(files[0].name))
    ensures |files| > 0 && check.Pass? ==> r.slot == Some(created) && r.revoked == LiveUrl(slot)
    ensures |files| > 0 ==> r == HandleFileUpload(slot, files[0], check, created)
  {
    if |files| == 0 then Step(slot, None, None)
    else HandleFileUpload(slot, files[0], check, created)
  }

  /**
    `removeFile`: a present file with a URL has the URL revoked and the slot
    emptied; otherwise nothing changes.
   */
  function RemoveFile(slot: Option<UploadedFile>): (r: Step)
    ensures slot.None? || slot.value.url == "" ==> r == Step(slot, None, None)
    ensures slot.Some? && slot.value.url != "" ==> r.slot.None? && r.revoked == Some(slot.value.url)
    ensures r.notice.None?
  {
    if slot.Some? && slot.value.url != "" then Step(None, Some(slot.value.url), None)
    else Step(slot, None, None)
  }

  /**
    Every URL that leaves the slot is revoked: uploading over a file and then
    removing the new one revokes the previous URL and then the new one, and the
    slot ends empty.
   */
  lemma ReplaceThenRemove(previous: UploadedFile, file: FileInfo, created: UploadedFile)
    requires previous.url != "" && created.url != ""
    ensures var up := HandleFileUpload(Some(previous), file, Pass, created);
      var rm := RemoveFile(up.slot);
      up.revoked == Some(previous.url) && rm.revoked == Some(created.url) && rm.slot.None?
  {
  }

  /**
    `handleDrop` as written: it is memoised with no dependencies, so it keeps
    calling the `handleFileUpload` of the first render, which sees an empty
    slot. The dropped file still takes the slot, but the URL of the file it
    replaces is never revoked.
   */
  function HandleDropAsWritten(slot: Option<UploadedFile>, files: seq<FileInfo>, check: Check, created: UploadedFile): (r: Step)
    ensures |files| == 0 ==> r == Step(slot, None, None)
    ensures r.revoked.None?
    ensures r.slot == HandleDrop(slot, files, check, created).slot
    ensures r.notice == HandleDrop(slot, files, check, created).notice
  {
    if |files| == 0 then Step(slot, None, None)
    else
      var stale := HandleFileUpload(None, files[0], check, created);
      Step(if check.Pass? then stale.slot else slot, stale.revoked, stale.notice)
  }

  /** Dropping a file over one with a URL: as written nothing is revoked; as meant, the old URL is. */
  lemma DropLeaksReplacedUrl(previous: UploadedFile, file: FileInfo, created: UploadedFile)
    requires previous.url != ""
    ensures HandleDropAsWritten(Some(previous), [file], Pass, created).revoked == None
    ensures HandleDrop(Some(previous), [file], Pass, created).revoked == Some(previous.url)
    ensures HandleDropAsWritten(Some(previous), [file], Pass, created).slot == Some(created)
  {
  }
}
