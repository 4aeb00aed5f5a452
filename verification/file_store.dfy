/**
 * The observable contract of the browser file store: one table, "files" in
 * the database "Rufoof_Storage_DB", whose entries are keyed by their id.
 * The connection, transactions and object-URL minting are not modelled;
 * opening the URL of an entry serves that entry's payload.
 */
module FileStore {
  import opened Wrappers

  /** A file picked in an upload field. */
  datatype Upload = Upload(name: string, mediaType: string, payload: seq<bv8>)

  /** One table row: the file itself and its name, type, size and storage time. */
  datatype StoredFile = StoredFile(id: string, file: Upload, name: string, mediaType: string, size: nat, date: int)

  type Files = map<string, StoredFile>

  /** Every row is stored under its own id. */
  predicate WellKeyed(files: Files) {
    forall id :: id in files ==> files[id].id == id
  }

  /**
   * `saveFile`: stores the upload under the fresh id `id` (a random UUID in
   * the application) at time `now`; a row already under `id` is replaced.
   */
  function SaveFile(files: Files, id: string, upload: Upload, now: int): (r: Files)
    ensures r.Keys == files.Keys + {id}
    ensures r[id].file == upload && r[id].size == |upload.payload|
    ensures forall k :: k in files && k != id ==> r[k] == files[k]
    ensures WellKeyed(files) ==> WellKeyed(r)
  {
    files[id := StoredFile(id, upload, upload.name, upload.mediaType, |upload.payload|, now)]
  }

  /** `getFileUrl`: the stored upload an object URL would serve, or null when no row has that id. */
  function GetFile(files: Files, id: string): (r: Option<Upload>)
    ensures r.Some? <==> id in files
    ensures r.Some? ==> r.value == files[id].file
  {
    if id in files then Some(files[id].file) else None
  }

  /** The URL minted for a freshly saved upload serves exactly the uploaded bytes. */
  lemma SaveThenGet(files: Files, id: string, upload: Upload, now: int)
    ensures GetFile(SaveFile(files, id, upload, now), id) == Some(upload)
  {
  }

  /** Saving under one id leaves the lookup of every other id as it was. */
  lemma SaveKeepsOthers(files: Files, id: string, other: string, upload: Upload, now: int)
    requires other != id
    ensures GetFile(SaveFile(files, id, upload, now), other) == GetFile(files, other)
  {
  }
}
