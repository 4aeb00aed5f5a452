/**
 * Opening a record's document: the blob named by its file id when the file
 * store has it, otherwise its external URL unless that is missing, empty or
 * the "no link" marker, otherwise a "file not found" notice.
 */
module Download {
  import opened Wrappers
  import opened Records
  import opened FileStore

  /** What the click does: open the blob, open the external link, or alert that the file is missing. */
  datatype Opened = OpenBlob(file: Upload) | OpenLink(url: string) | FileNotFound

  /** The file id is truthy and the file store has an entry for it. */
  predicate BlobFound(files: Files, fileId: Option<string>) {
    fileId.Some? && fileId.value != "" && GetFile(files, fileId.value).Some?
  }

  /** The fallback URL is present, non-empty and not the "no link" marker. */
  predicate Linkable(url: Option<string>) {
    url.Some? && url.value != "" && url.value != NoLink
  }

  /** `handleDownloadFile(fileId, fallbackUrl)`. */
  function ResolveDocument(files: Files, fileId: Option<string>, fallbackUrl: Option<string>): (r: Opened)
    ensures r.OpenBlob? <==> BlobFound(files, fileId)
    ensures r.OpenBlob? ==> r.file == files[fileId.value].file
    ensures r.OpenLink? <==> !BlobFound(files, fileId) && Linkable(fallbackUrl)
    ensures r.OpenLink? ==> r.url == fallbackUrl.value
    ensures r.FileNotFound? <==> !BlobFound(files, fileId) && !Linkable(fallbackUrl)
  {
    var found := if fileId.Some? && fileId.value != "" then GetFile(files, fileId.value) else None;
    if found.Some? then OpenBlob(found.value)
    else if fallbackUrl.Some? && fallbackUrl.value != "" && fallbackUrl.value != NoLink then OpenLink(fallbackUrl.value)
    else FileNotFound
  }

  /** Clicking a work: its file id first, then its legacy URL. */
  function BookDocument(files: Files, b: Book): (r: Opened)
    ensures r.OpenBlob? <==> BlobFound(files, b.pdfFileId)
    ensures r.OpenBlob? ==> r.file == files[b.pdfFileId.value].file
    ensures r.OpenLink? <==> !BlobFound(files, b.pdfFileId) && Linkable(b.pdfUrl)
    ensures r.OpenLink? ==> b.pdfUrl == Some(r.url)
  {
    ResolveDocument(files, b.pdfFileId, b.pdfUrl)
  }

  /** Clicking a job's download button: its file id first, then its URL; a job posted without a link never opens one. */
  function JobDocument(files: Files, j: Job): (r: Opened)
    ensures r.OpenBlob? <==> BlobFound(files, j.pdfFileId)
    ensures r.OpenBlob? ==> r.file == files[j.pdfFileId.value].file
    ensures r.OpenLink? <==> !BlobFound(files, j.pdfFileId) && j.pdfUrl != "" && j.pdfUrl != NoLink
    ensures r.OpenLink? ==> r.url == j.pdfUrl
  {
    ResolveDocument(files, j.pdfFileId, Some(j.pdfUrl))
  }

  /**
   * A record that has both a stored blob and an external URL always opens
   * the blob; the external URL is reached only when the blob is absent.
   */
  lemma BlobTakesPrecedence(files: Files, id: string, url: string)
    requires id != "" && id in files
    ensures ResolveDocument(files, Some(id), Some(url)) == OpenBlob(files[id].file)
    ensures url != "" && url != NoLink ==> ResolveDocument(files - {id}, Some(id), Some(url)) == OpenLink(url)
  {
  }

  /** An uploaded file, once stored under a non-empty id, is what the record's document opens. */
  lemma SavedBlobOpens(files: Files, id: string, upload: Upload, now: int, url: Option<string>)
    requires id != ""
    ensures ResolveDocument(SaveFile(files, id, upload, now), Some(id), url) == OpenBlob(upload)
  {
  }

  /** An id the file store does not know is a soft miss: the outcome is decided by the fallback alone. */
  lemma MissingBlobFallsBack(files: Files, id: string, url: Option<string>)
    requires id !in files
    ensures ResolveDocument(files, Some(id), url) == ResolveDocument(files, None, url)
  {
  }
}
