/**
 * The dashboard's collection handlers: submitting the work, partner and job
 * forms (create or edit), deleting a record after confirmation, and loading
 * a record into its form for editing. The clock reading, the outcome of
 * saving the picked file, and `encodeURIComponent` are parameters.
 */
module Dashboard {
  import opened Wrappers
  import opened JsText
  import opened Records
  import opened IdLists

  const Untitled: string := "بدون عنوان"
  const UnknownAuthor: string := "غير محدد"
  const Unnamed: string := "بدون اسم"
  const VacantJob: string := "وظيفة شاغرة"
  const CoverBase: string := "https://picsum.photos/400/600?random="
  const AvatarBase: string := "https://ui-avatars.com/api/?name="
  const AvatarSuffix: string := "&background=random"

  /**
   * What happened to the file picked in the form: none was picked, it was
   * stored under the given id, or storing it threw.
   */
  datatype FileSave = NoFile | Saved(fileId: string) | SaveFailed

  /** The id a successful save produced, `undefined` otherwise. */
  function SavedId(save: FileSave): Option<string> {
    if save.Saved? then Some(save.fileId) else None
  }

  /** The form's editing id is truthy, so a submit edits instead of creating. */
  predicate Editing(editing: Option<string>) {
    editing.Some? && editing.value != ""
  }

  /** A form's fields together with the id of the record being edited, if any. */
  datatype Editor<F> = Editor(form: F, editing: Option<string>)

  /** A handler's effect on one collection and on the form's editing id. */
  datatype Deletion<T> = Deletion(records: seq<T>, editing: Option<string>)

  /** `Date.now().toString()`: the id given to a record created at clock reading `now`. */
  function MintId(now: nat): (id: string)
    ensures id != "" && forall i :: 0 <= i < |id| ==> '0' <= id[i] <= '9'
    ensures id[0] == '0' ==> now == 0
    ensures ParseDecimal(id) == now
  {
    DecimalRoundTrip(now);
    Decimal(now)
  }

  // ---------------------------------------------------------------- works

  /**
   * The work form's fields. `coverName` is declared by the application but
   * only ever set to the empty string; no input of the form sets it, so in
   * the running program every edit keeps the work's cover.
   */
  datatype BookForm = BookForm(
    title: string,
    author: string,
    category: Category,
    description: string,
    fileName: string,
    externalUrl: string,
    coverName: string)

  /** The fixed replacements for blank fields are themselves non-empty and trimmed. */
  lemma DefaultsTrimmed()
    ensures Untitled != "" && Trimmed(Untitled) && UnknownAuthor != "" && Trimmed(UnknownAuthor)
    ensures Unnamed != "" && Trimmed(Unnamed) && VacantJob != "" && Trimmed(VacantJob)
    ensures NoLink != "" && Trimmed(NoLink)
  {
  }

  /** The random placeholder cover minted at clock reading `now`. */
  function CoverUrl(now: nat): (url: string)
    ensures |url| > |CoverBase| && url[..|CoverBase|] == CoverBase
    ensures url[|CoverBase|..] == MintId(now)
    ensures ParseDecimal(url[|CoverBase|..]) == now
  {
    DecimalRoundTrip(now);
    assert (CoverBase + Decimal(now))[|CoverBase|..] == Decimal(now);
    CoverBase + Decimal(now)
  }

  /** The document URL a submit produces: the trimmed external URL, or the "no link" marker. */
  function FinalPdfUrl(form: BookForm): (r: string)
    ensures r != ""
    ensures !AllSpace(form.externalUrl) ==> r == Trim(form.externalUrl)
    ensures r == NoLink <==> AllSpace(form.externalUrl) || Trim(form.externalUrl) == NoLink
  {
    TrimOr(form.externalUrl, NoLink)
  }

  /**
   * A submitted work's normal form: title and author trimmed and non-empty,
   * and the document URL present, non-empty and trimmed.
   */
  predicate NormalBook(b: Book) {
    && b.title != "" && Trimmed(b.title)
    && b.author != "" && Trimmed(b.author)
    && b.pdfUrl.Some? && b.pdfUrl.value != "" && Trimmed(b.pdfUrl.value)
  }

  /** The work created by a submit at clock reading `now`, with the id of the stored file if any. */
  function NewBook(form: BookForm, fileId: Option<string>, now: nat): (b: Book)
    ensures b.id == MintId(now) && b.dateAdded == now
    ensures NormalBook(b)
    ensures b.title == TrimOr(form.title, Untitled) && b.author == TrimOr(form.author, UnknownAuthor)
    ensures AllSpace(form.title) ==> b.title == Untitled
    ensures AllSpace(form.author) ==> b.author == UnknownAuthor
    ensures b.pdfUrl == Some(FinalPdfUrl(form))
    ensures AllSpace(form.externalUrl) ==> b.pdfUrl == Some(NoLink)
    ensures b.category == form.category && b.description == form.description && b.coverUrl == CoverUrl(now)
    ensures b.pdfFileId == fileId && b.pdfName == Some(form.fileName) && b.coverFileId.None?
  {
    DefaultsTrimmed();
    Book(MintId(now), TrimOr(form.title, Untitled), TrimOr(form.author, UnknownAuthor), form.category,
      form.description, CoverUrl(now), None, Some(FinalPdfUrl(form)), fileId, Some(form.fileName), now)
  }

  /**
   * An edited work. Identity, creation time and cover file id are kept; the
   * texts come from the form; a new file id or file name wins only when
   * non-empty, the external URL only when it is not the "no link" marker,
   * and the cover changes only when a cover was picked.
   */
  function BookEdit(b: Book, form: BookForm, fileId: Option<string>, now: nat): (r: Book)
    ensures r.id == b.id && r.dateAdded == b.dateAdded && r.coverFileId == b.coverFileId
    ensures r.title == TrimOr(form.title, Untitled) && r.author == TrimOr(form.author, UnknownAuthor)
    ensures r.category == form.category && r.description == form.description
    ensures form.coverName == "" ==> r.coverUrl == b.coverUrl
    ensures form.coverName != "" ==> r.coverUrl == CoverUrl(now)
    ensures fileId.Some? && fileId.value != "" ==> r.pdfFileId == fileId
    ensures fileId.None? || fileId == Some("") ==> r.pdfFileId == b.pdfFileId
    ensures AllSpace(form.externalUrl) ==> r.pdfUrl == b.pdfUrl
    ensures !AllSpace(form.externalUrl) && Trim(form.externalUrl) != NoLink ==> r.pdfUrl == Some(Trim(form.externalUrl))
    ensures r.pdfUrl != b.pdfUrl ==> r.pdfUrl == Some(Trim(form.externalUrl)) && Trim(form.externalUrl) != NoLink
    ensures form.fileName == "" ==> r.pdfName == b.pdfName
    ensures form.fileName != "" ==> r.pdfName == Some(form.fileName)
  {
    var pdfUrl := FinalPdfUrl(form);
    b.(title := TrimOr(form.title, Untitled),
       author := TrimOr(form.author, UnknownAuthor),
       category := form.category,
       description := form.description,
       coverUrl := if form.coverName != "" then CoverUrl(now) else b.coverUrl,
       pdfFileId := FirstTruthy(fileId, b.pdfFileId),
       pdfUrl := if pdfUrl != NoLink then Some(pdfUrl) else b.pdfUrl,
       pdfName := FirstTruthy(Some(form.fileName), b.pdfName))
  }

  /** The update a work submit applies to the record being edited. */
  function BookEditor(form: BookForm, fileId: Option<string>, now: nat): Book -> Book {
    b => BookEdit(b, form, fileId, now)
  }

  /** `handleAddBook`: the new work goes first, ahead of every existing one. */
  function AddBook(books: seq<Book>, b: Book): (r: seq<Book>)
    ensures |r| == |books| + 1 && r[0] == b && r[1..] == books
  {
    Prepend(b, books)
  }

  /**
   * `handleSubmit` on the work form. A failed file save aborts with the
   * collection unchanged; otherwise the edited work is merged in place, or a
   * new work is put first.
   */
  function SubmitBook(books: seq<Book>, ed: Editor<BookForm>, save: FileSave, now: nat): (r: seq<Book>)
    ensures save.SaveFailed? ==> r == books
    ensures !save.SaveFailed? && Editing(ed.editing) ==>
      r == UpdateById(books, ed.editing.value, BookId, BookEditor(ed.form, SavedId(save), now))
    ensures !save.SaveFailed? && !Editing(ed.editing) ==>
      |r| == |books| + 1 && r[0] == NewBook(ed.form, SavedId(save), now) && r[1..] == books
    ensures Editing(ed.editing) ==> |r| == |books| && forall i :: 0 <= i < |books| ==>
      r[i].id == books[i].id && (books[i].id != ed.editing.value ==> r[i] == books[i])
  {
    if save.SaveFailed? then books
    else if Editing(ed.editing) then
      UpdateById(books, ed.editing.value, BookId, BookEditor(ed.form, SavedId(save), now))
    else
      AddBook(books, NewBook(ed.form, SavedId(save), now))
  }

  /** `startEdit`: the work's texts go into the form; a "no link" URL shows as an empty field. */
  function StartEditBook(form: BookForm, b: Book): (r: Editor<BookForm>)
    ensures r.editing == Some(b.id)
    ensures r.form.title == b.title && r.form.author == b.author
    ensures r.form.category == b.category && r.form.description == b.description
    ensures r.form.fileName == form.fileName && r.form.coverName == form.coverName
    ensures b.pdfUrl.None? || b.pdfUrl == Some("") || b.pdfUrl == Some(NoLink) ==> r.form.externalUrl == ""
    ensures b.pdfUrl.Some? && b.pdfUrl.value != "" && b.pdfUrl.value != NoLink ==> r.form.externalUrl == b.pdfUrl.value
  {
    Editor(form.(title := b.title, author := b.author, category := b.category, description := b.description,
                 externalUrl := if b.pdfUrl.Some? && b.pdfUrl.value != "" && b.pdfUrl.value != NoLink then b.pdfUrl.value else ""),
           Some(b.id))
  }

  // ------------------------------------------------------------- partners

  /** The partner form's texts; the picked logo's file name is only displayed. */
  datatype PartnerForm = PartnerForm(name: string, description: string)

  /** The generated avatar for a new partner, from the untrimmed name or "P". */
  function AvatarUrl(name: string, encode: string -> string): (url: string)
    ensures name != "" ==> url == AvatarBase + encode(name) + AvatarSuffix
    ensures name == "" ==> url == AvatarBase + encode("P") + AvatarSuffix
  {
    AvatarBase + encode(OrElse(name, "P")) + AvatarSuffix
  }

  /** A logo was stored and `getFileUrl` gave a non-empty object URL for it. */
  predicate NewLogo(save: FileSave, objectUrl: Option<string>) {
    save.Saved? && objectUrl.Some? && objectUrl.value != ""
  }

  /**
   * The logo URL a partner submit stores: the object URL of a freshly
   * stored logo when one was minted, otherwise the current logo of the first
   * partner with the edited id (empty if there is none) or, for a new
   * partner, its avatar.
   */
  function PartnerLogoUrl(partners: seq<Partner>, ed: Editor<PartnerForm>, save: FileSave, objectUrl: Option<string>,
                          encode: string -> string): (r: string)
    ensures NewLogo(save, objectUrl) ==> r == objectUrl.value
    ensures !Editing(ed.editing) && !NewLogo(save, objectUrl) ==> r == AvatarUrl(ed.form.name, encode)
    ensures forall k :: (Editing(ed.editing) && FirstWithId(partners, k, ed.editing.value, PartnerId)
      && !NewLogo(save, objectUrl)) ==> r == partners[k].logoUrl
    ensures (Editing(ed.editing) && !HasId(partners, ed.editing.value, PartnerId) && !NewLogo(save, objectUrl))
      ==> r == ""
  {
    var current :=
      if Editing(ed.editing) then
        match FindById(partners, ed.editing.value, PartnerId)
        case Some(p) => OrElse(p.logoUrl, "")
        case None => ""
      else AvatarUrl(ed.form.name, encode);
    assert forall k :: (Editing(ed.editing) && FirstWithId(partners, k, ed.editing.value, PartnerId)) ==>
        current == partners[k].logoUrl by {
      forall k | Editing(ed.editing) && FirstWithId(partners, k, ed.editing.value, PartnerId) {
        FirstIsFound(partners, k, ed.editing.value, PartnerId);
      }
    }
    if save.Saved? then OrElse(objectUrl.GetOr(""), current) else current
  }

  /** An edited partner: id kept, name normalised, description and logo replaced, a new logo file id wins. */
  function PartnerEdit(p: Partner, form: PartnerForm, logoUrl: string, logoFileId: Option<string>): (r: Partner)
    ensures r.id == p.id
    ensures r.name == TrimOr(form.name, Unnamed) && r.description == form.description && r.logoUrl == logoUrl
    ensures logoFileId.Some? && logoFileId.value != "" ==> r.logoFileId == logoFileId
    ensures logoFileId.None? || logoFileId == Some("") ==> r.logoFileId == p.logoFileId
  {
    p.(name := TrimOr(form.name, Unnamed), description := form.description, logoUrl := logoUrl,
       logoFileId := FirstTruthy(logoFileId, p.logoFileId))
  }

  /** The update a partner submit applies to the record being edited. */
  function PartnerEditor(form: PartnerForm, logoUrl: string, logoFileId: Option<string>): Partner -> Partner {
    p => PartnerEdit(p, form, logoUrl, logoFileId)
  }

  /** The partner created by a submit at clock reading `now`. */
  function NewPartner(form: PartnerForm, logoUrl: string, logoFileId: Option<string>, now: nat): (p: Partner)
    ensures p.id == MintId(now) && p.name != "" && Trimmed(p.name)
    ensures p.name == TrimOr(form.name, Unnamed) && p.description == form.description
    ensures AllSpace(form.name) ==> p.name == Unnamed
    ensures p.logoUrl == logoUrl && p.logoFileId == logoFileId
  {
    DefaultsTrimmed();
    Partner(MintId(now), TrimOr(form.name, Unnamed), form.description, logoUrl, logoFileId)
  }

  /**
   * `handleSubmitPartner`. A failed logo save aborts with the collection
   * unchanged; otherwise the edited partner is merged in place or the new one
   * goes last. `objectUrl` is what `getFileUrl` returned for the stored logo.
   */
  function SubmitPartner(partners: seq<Partner>, ed: Editor<PartnerForm>, save: FileSave, objectUrl: Option<string>,
                         encode: string -> string, now: nat): (r: seq<Partner>)
    ensures save.SaveFailed? ==> r == partners
    ensures !save.SaveFailed? && Editing(ed.editing) ==> r == UpdateById(partners, ed.editing.value, PartnerId,
      PartnerEditor(ed.form, PartnerLogoUrl(partners, ed, save, objectUrl, encode), SavedId(save)))
    ensures !save.SaveFailed? && !Editing(ed.editing) ==> (|r| == |partners| + 1 && r[..|partners|] == partners
      && r[|partners|] == NewPartner(ed.form, PartnerLogoUrl(partners, ed, save, objectUrl, encode), SavedId(save), now))
    ensures Editing(ed.editing) ==> |r| == |partners| && forall i :: 0 <= i < |partners| ==>
      r[i].id == partners[i].id && (partners[i].id != ed.editing.value ==> r[i] == partners[i])
  {
    if save.SaveFailed? then partners
    else
      var logoUrl := PartnerLogoUrl(partners, ed, save, objectUrl, encode);
      if Editing(ed.editing) then
        UpdateById(partners, ed.editing.value, PartnerId, PartnerEditor(ed.form, logoUrl, SavedId(save)))
      else
        Append(partners, NewPartner(ed.form, logoUrl, SavedId(save), now))
  }

  /** `startEditPartner`: name and description go into the form. */
  function StartEditPartner(form: PartnerForm, p: Partner): (r: Editor<PartnerForm>)
    ensures r.editing == Some(p.id) && r.form == PartnerForm(p.name, p.description)
  {
    Editor(form.(name := p.name, description := p.description), Some(p.id))
  }

  // ----------------------------------------------------------------- jobs

  datatype JobForm = JobForm(title: string, date: string, description: string, pdfName: string)

  /** The posting date a submit stores: the form's date as typed, or `today` when it is empty. */
  function FinalDate(form: JobForm, today: string): (r: string)
    ensures form.date != "" ==> r == form.date
    ensures form.date == "" ==> r == today
  {
    OrElse(form.date, today)
  }

  /** An edited job: id and external URL kept, texts replaced, a new file id or file name wins when non-empty. */
  function JobEdit(j: Job, form: JobForm, fileId: Option<string>, today: string): (r: Job)
    ensures r.id == j.id && r.pdfUrl == j.pdfUrl
    ensures r.title == TrimOr(form.title, VacantJob) && r.date == FinalDate(form, today)
    ensures r.description == Some(form.description)
    ensures fileId.Some? && fileId.value != "" ==> r.pdfFileId == fileId
    ensures fileId.None? || fileId == Some("") ==> r.pdfFileId == j.pdfFileId
    ensures form.pdfName == "" ==> r.pdfName == j.pdfName
    ensures form.pdfName != "" ==> r.pdfName == form.pdfName
  {
    j.(title := TrimOr(form.title, VacantJob), date := FinalDate(form, today), description := Some(form.description),
       pdfFileId := FirstTruthy(fileId, j.pdfFileId), pdfName := OrElse(form.pdfName, j.pdfName))
  }

  /** The update a job submit applies to the record being edited. */
  function JobEditor(form: JobForm, fileId: Option<string>, today: string): Job -> Job {
    j => JobEdit(j, form, fileId, today)
  }

  /** The job created by a submit at clock reading `now`; its external URL is the "no link" marker. */
  function NewJob(form: JobForm, fileId: Option<string>, now: nat, today: string): (j: Job)
    ensures j.id == MintId(now) && j.title != "" && Trimmed(j.title)
    ensures j.title == TrimOr(form.title, VacantJob)
    ensures AllSpace(form.title) ==> j.title == VacantJob
    ensures j.pdfUrl == NoLink && j.pdfFileId == fileId && j.pdfName == form.pdfName
    ensures j.date == FinalDate(form, today) && j.description == Some(form.description)
  {
    DefaultsTrimmed();
    Job(MintId(now), TrimOr(form.title, VacantJob), FinalDate(form, today), Some(form.description), NoLink,
      fileId, form.pdfName)
  }

  /**
   * `handleSubmitJob`. A failed file save aborts with the collection
   * unchanged; otherwise the edited job is merged in place or the new one
   * goes last. `today` is the current date as "YYYY-MM-DD".
   */
  function SubmitJob(jobs: seq<Job>, ed: Editor<JobForm>, save: FileSave, now: nat, today: string): (r: seq<Job>)
    ensures save.SaveFailed? ==> r == jobs
    ensures !save.SaveFailed? && Editing(ed.editing) ==>
      r == UpdateById(jobs, ed.editing.value, JobId, JobEditor(ed.form, SavedId(save), today))
    ensures !save.SaveFailed? && !Editing(ed.editing) ==>
      |r| == |jobs| + 1 && r[..|jobs|] == jobs && r[|jobs|] == NewJob(ed.form, SavedId(save), now, today)
    ensures Editing(ed.editing) ==> |r| == |jobs| && forall i :: 0 <= i < |jobs| ==>
      r[i].id == jobs[i].id && (jobs[i].id != ed.editing.value ==> r[i] == jobs[i])
  {
    if save.SaveFailed? then jobs
    else if Editing(ed.editing) then
      UpdateById(jobs, ed.editing.value, JobId, JobEditor(ed.form, SavedId(save), today))
    else
      Append(jobs, NewJob(ed.form, SavedId(save), now, today))
  }

  /** `startEditJob`: title, date and description (empty when missing) go into the form. */
  function StartEditJob(form: JobForm, j: Job): (r: Editor<JobForm>)
    ensures r.editing == Some(j.id) && r.form.pdfName == form.pdfName
    ensures r.form.title == j.title && r.form.date == j.date
    ensures j.description.Some? ==> r.form.description == j.description.value
    ensures j.description.None? ==> r.form.description == ""
  {
    Editor(form.(title := j.title, date := j.date, description := j.description.GetOr("")), Some(j.id))
  }

  // --------------------------------------------------------------- delete

  /**
   * `deleteBook`, `deletePartner` and `deleteJob`: when the user confirms,
   * every record with `id` is removed and, if that record was being edited,
   * the form is reset; when the user declines nothing changes.
   */
  function Delete<T(==)>(xs: seq<T>, idOf: T -> string, id: string, confirmed: bool, editing: Option<string>): (r: Deletion<T>)
    ensures !confirmed ==> r == Deletion(xs, editing)
    ensures confirmed ==> forall i :: 0 <= i < |r.records| ==> idOf(r.records[i]) != id
    ensures confirmed ==> forall i :: 0 <= i < |xs| && idOf(xs[i]) != id ==> xs[i] in r.records
    ensures IsSubsequence(r.records, xs)
    ensures confirmed ==> |r.records| == |xs| - CountId(xs, id, idOf)
    ensures confirmed && editing == Some(id) ==> r.editing.None?
    ensures editing != Some(id) ==> r.editing == editing
  {
    if confirmed then
      Deletion(RemoveById(xs, id, idOf), if editing == Some(id) then None else editing)
    else
      assert IsSubsequence(xs, xs) by { SubsequenceReflexive(xs); }
      Deletion(xs, editing)
  }
}
