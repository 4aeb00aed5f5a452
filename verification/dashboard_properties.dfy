/**
 * Properties relating the dashboard handlers to each other, to deletion, and
 * to opening a record's document.
 */
module DashboardProperties {
  import opened Wrappers
  import opened JsText
  import opened Records
  import opened IdLists
  import opened FileStore
  import opened Download
  import opened Dashboard

  /** A trimmed non-empty string is not blank, so trimming it with a fallback gives it back. */
  lemma TrimOrKeepsTrimmed(s: string, fallback: string)
    requires s != "" && Trimmed(s)
    ensures TrimOr(s, fallback) == s
  {
    assert !IsSpace(s[0]);
  }

  /**
   * A work the edit form reproduces: title and author trimmed and non-empty,
   * and a real external URL already trimmed.
   */
  predicate BookEditStable(b: Book) {
    && b.id != ""
    && b.title != "" && Trimmed(b.title)
    && b.author != "" && Trimmed(b.author)
    && (b.pdfUrl.Some? && b.pdfUrl.value != "" && b.pdfUrl.value != NoLink ==> Trimmed(b.pdfUrl.value))
  }

  /**
   * Creation normalises once and for all: a work created from the texts a
   * creation stored is that same work again.
   */
  lemma NewBookIdempotent(form: BookForm, fileId: Option<string>, now: nat)
    ensures var b := NewBook(form, fileId, now);
      NewBook(form.(title := b.title, author := b.author, externalUrl := b.pdfUrl.value), fileId, now) == b
  {
    var b := NewBook(form, fileId, now);
    TrimOrKeepsTrimmed(b.title, Untitled);
    TrimOrKeepsTrimmed(b.author, UnknownAuthor);
    TrimOrKeepsTrimmed(b.pdfUrl.value, NoLink);
  }

  /** Every created work is one the edit form reproduces, so an untouched edit of it changes nothing. */
  lemma NewBookEditStable(form: BookForm, fileId: Option<string>, now: nat)
    ensures BookEditStable(NewBook(form, fileId, now))
  {
  }

  /** A partner created from the name a creation stored has that same name. */
  lemma NewPartnerIdempotent(form: PartnerForm, logoUrl: string, logoFileId: Option<string>, now: nat)
    ensures var p := NewPartner(form, logoUrl, logoFileId, now);
      NewPartner(form.(name := p.name), logoUrl, logoFileId, now) == p
  {
    var p := NewPartner(form, logoUrl, logoFileId, now);
    TrimOrKeepsTrimmed(p.name, Unnamed);
  }

  /** A job created from the title a creation stored has that same title. */
  lemma NewJobIdempotent(form: JobForm, fileId: Option<string>, now: nat, today: string)
    ensures var j := NewJob(form, fileId, now, today);
      NewJob(form.(title := j.title), fileId, now, today) == j
  {
    var j := NewJob(form, fileId, now, today);
    TrimOrKeepsTrimmed(j.title, VacantJob);
  }

  /**
   * Opening a work for editing and saving the form untouched (no file, no
   * cover, no new file name) leaves the whole collection as it was.
   */
  lemma EditUnchangedBook(books: seq<Book>, k: nat, form: BookForm, now: nat)
    requires k < |books| && UniqueIds(books, BookId) && BookEditStable(books[k])
    requires form.fileName == "" && form.coverName == ""
    ensures SubmitBook(books, StartEditBook(form, books[k]), NoFile, now) == books
  {
    var ed := StartEditBook(form, books[k]);
    var f := BookEditor(ed.form, None, now);
    assert UpdateById(books, BookId(books[k]), BookId, f) == books by {
      BookEditorFixes(books[k], form, now);
      UpdateUniqueFixpoint(books, k, BookId, f);
    }
    assert SubmitBook(books, ed, NoFile, now) == UpdateById(books, BookId(books[k]), BookId, f) by {
      assert SavedId(NoFile) == None;
      assert ed.editing.value == BookId(books[k]);
    }
  }

  /** The merge of an untouched edit form into the work it was loaded from is that work. */
  lemma BookEditFixpoint(b: Book, form: BookForm, now: nat)
    requires BookEditStable(b) && form.fileName == "" && form.coverName == ""
    ensures BookEdit(b, StartEditBook(form, b).form, None, now) == b
  {
    BookEditKeepsUrl(b, form, now);
    TrimOrKeepsTrimmed(b.title, Untitled);
    TrimOrKeepsTrimmed(b.author, UnknownAuthor);
  }

  /** The work editor, applied to the work it was loaded from, gives back that work. */
  lemma BookEditorFixes(b: Book, form: BookForm, now: nat)
    requires BookEditStable(b) && form.fileName == "" && form.coverName == ""
    ensures BookEditor(StartEditBook(form, b).form, None, now)(b) == b
  {
    BookEditFixpoint(b, form, now);
  }

  /** An untouched edit form shows the work's real URL, or an empty field, and so keeps the URL. */
  lemma BookEditKeepsUrl(b: Book, form: BookForm, now: nat)
    requires BookEditStable(b)
    ensures BookEdit(b, StartEditBook(form, b).form, None, now).pdfUrl == b.pdfUrl
  {
    if b.pdfUrl.Some? && b.pdfUrl.value != "" && b.pdfUrl.value != NoLink {
      TrimOrKeepsTrimmed(b.pdfUrl.value, NoLink);
    }
  }

  /** Opening a partner for editing and saving it untouched, with no logo picked, changes nothing. */
  lemma EditUnchangedPartner(partners: seq<Partner>, k: nat, form: PartnerForm, objectUrl: Option<string>,
                             encode: string -> string, now: nat)
    requires k < |partners| && UniqueIds(partners, PartnerId)
    requires partners[k].id != "" && partners[k].name != "" && Trimmed(partners[k].name)
    ensures SubmitPartner(partners, StartEditPartner(form, partners[k]), NoFile, objectUrl, encode, now) == partners
  {
    var ed := StartEditPartner(form, partners[k]);
    var logoUrl := PartnerLogoUrl(partners, ed, NoFile, objectUrl, encode);
    assert logoUrl == partners[k].logoUrl by {
      PartnerLogoKept(partners, k, form, objectUrl, encode);
    }
    var f := PartnerEditor(ed.form, logoUrl, None);
    assert UpdateById(partners, PartnerId(partners[k]), PartnerId, f) == partners by {
      PartnerEditorFixes(partners[k], form);
      UpdateUniqueFixpoint(partners, k, PartnerId, f);
    }
    assert SubmitPartner(partners, ed, NoFile, objectUrl, encode, now)
        == UpdateById(partners, PartnerId(partners[k]), PartnerId, f) by {
      assert SavedId(NoFile) == None;
      assert ed.editing.value == PartnerId(partners[k]);
    }
  }

  /** Without a new logo, the logo URL an edit stores is the edited partner's current one. */
  lemma PartnerLogoKept(partners: seq<Partner>, k: nat, form: PartnerForm, objectUrl: Option<string>,
                        encode: string -> string)
    requires k < |partners| && UniqueIds(partners, PartnerId) && partners[k].id != ""
    ensures PartnerLogoUrl(partners, StartEditPartner(form, partners[k]), NoFile, objectUrl, encode) == partners[k].logoUrl
  {
  }

  /** Merging an untouched partner form, with the current logo, into its partner gives back that partner. */
  lemma PartnerEditFixpoint(p: Partner, form: PartnerForm)
    requires p.name != "" && Trimmed(p.name)
    ensures PartnerEdit(p, StartEditPartner(form, p).form, p.logoUrl, None) == p
  {
    TrimOrKeepsTrimmed(p.name, Unnamed);
  }

  /** The partner editor, applied to the partner it was loaded from, gives back that partner. */
  lemma PartnerEditorFixes(p: Partner, form: PartnerForm)
    requires p.name != "" && Trimmed(p.name)
    ensures PartnerEditor(StartEditPartner(form, p).form, p.logoUrl, None)(p) == p
  {
    PartnerEditFixpoint(p, form);
  }

  /**
   * Opening a job for editing and saving it untouched, with no file picked
   * and no new file name, changes nothing, provided the job has a
   * description and a date (a missing description is saved as empty, a
   * missing date as today's).
   */
  lemma EditUnchangedJob(jobs: seq<Job>, k: nat, form: JobForm, now: nat, today: string)
    requires k < |jobs| && UniqueIds(jobs, JobId)
    requires jobs[k].id != "" && jobs[k].title != "" && Trimmed(jobs[k].title)
    requires jobs[k].date != "" && jobs[k].description.Some?
    requires form.pdfName == ""
    ensures SubmitJob(jobs, StartEditJob(form, jobs[k]), NoFile, now, today) == jobs
  {
    var ed := StartEditJob(form, jobs[k]);
    var f := JobEditor(ed.form, None, today);
    assert UpdateById(jobs, JobId(jobs[k]), JobId, f) == jobs by {
      JobEditorFixes(jobs[k], form, today);
      UpdateUniqueFixpoint(jobs, k, JobId, f);
    }
    assert SubmitJob(jobs, ed, NoFile, now, today) == UpdateById(jobs, JobId(jobs[k]), JobId, f) by {
      assert SavedId(NoFile) == None;
      assert ed.editing.value == JobId(jobs[k]);
    }
  }

  /** Merging an untouched job form into the job it was loaded from gives back that job. */
  lemma JobEditFixpoint(j: Job, form: JobForm, today: string)
    requires j.title != "" && Trimmed(j.title) && j.date != "" && j.description.Some? && form.pdfName == ""
    ensures JobEdit(j, StartEditJob(form, j).form, None, today) == j
  {
    TrimOrKeepsTrimmed(j.title, VacantJob);
  }

  /** The job editor, applied to the job it was loaded from, gives back that job. */
  lemma JobEditorFixes(j: Job, form: JobForm, today: string)
    requires j.title != "" && Trimmed(j.title) && j.date != "" && j.description.Some? && form.pdfName == ""
    ensures JobEditor(StartEditJob(form, j).form, None, today)(j) == j
  {
    JobEditFixpoint(j, form, today);
  }

  /** Creating a work and then deleting it, confirmed, restores the collection when its id was fresh. */
  lemma CreateThenDeleteBook(books: seq<Book>, form: BookForm, save: FileSave, now: nat)
    requires !save.SaveFailed? && !HasId(books, MintId(now), BookId)
    ensures Delete(SubmitBook(books, Editor(form, None), save, now), BookId, MintId(now), true, None).records == books
  {
    RemoveAfterPrepend(NewBook(form, SavedId(save), now), books, BookId);
  }

  /** Creating a partner and then deleting it, confirmed, restores the collection when its id was fresh. */
  lemma CreateThenDeletePartner(partners: seq<Partner>, form: PartnerForm, save: FileSave, objectUrl: Option<string>,
                                encode: string -> string, now: nat)
    requires !save.SaveFailed? && !HasId(partners, MintId(now), PartnerId)
    ensures Delete(SubmitPartner(partners, Editor(form, None), save, objectUrl, encode, now), PartnerId, MintId(now), true,
                   None).records == partners
  {
    var logoUrl := PartnerLogoUrl(partners, Editor(form, None), save, objectUrl, encode);
    RemoveAfterAppend(partners, NewPartner(form, logoUrl, SavedId(save), now), PartnerId);
  }

  /** Creating a job and then deleting it, confirmed, restores the collection when its id was fresh. */
  lemma CreateThenDeleteJob(jobs: seq<Job>, form: JobForm, save: FileSave, now: nat, today: string)
    requires !save.SaveFailed? && !HasId(jobs, MintId(now), JobId)
    ensures Delete(SubmitJob(jobs, Editor(form, None), save, now, today), JobId, MintId(now), true, None).records == jobs
  {
    RemoveAfterAppend(jobs, NewJob(form, SavedId(save), now, today), JobId);
  }

  /**
   * A work submit keeps ids unique: an edit never changes an id, and a
   * creation uses the clock reading, which the caller guarantees is fresh.
   */
  lemma SubmitBookKeepsIdsUnique(books: seq<Book>, ed: Editor<BookForm>, save: FileSave, now: nat)
    requires UniqueIds(books, BookId)
    requires !Editing(ed.editing) ==> !HasId(books, MintId(now), BookId)
    ensures UniqueIds(SubmitBook(books, ed, save, now), BookId)
  {
    if !save.SaveFailed? {
      if Editing(ed.editing) {
        var f := BookEditor(ed.form, SavedId(save), now);
        UpdatePreservesIds(books, ed.editing.value, BookId, f);
      } else {
        PrependPreservesUnique(NewBook(ed.form, SavedId(save), now), books, BookId);
      }
    }
  }

  /** A partner submit keeps ids unique under the same freshness condition. */
  lemma SubmitPartnerKeepsIdsUnique(partners: seq<Partner>, ed: Editor<PartnerForm>, save: FileSave,
                                    objectUrl: Option<string>, encode: string -> string, now: nat)
    requires UniqueIds(partners, PartnerId)
    requires !Editing(ed.editing) ==> !HasId(partners, MintId(now), PartnerId)
    ensures UniqueIds(SubmitPartner(partners, ed, save, objectUrl, encode, now), PartnerId)
  {
    if !save.SaveFailed? {
      var logoUrl := PartnerLogoUrl(partners, ed, save, objectUrl, encode);
      if Editing(ed.editing) {
        var f := PartnerEditor(ed.form, logoUrl, SavedId(save));
        UpdatePreservesIds(partners, ed.editing.value, PartnerId, f);
      } else {
        AppendPreservesUnique(partners, NewPartner(ed.form, logoUrl, SavedId(save), now), PartnerId);
      }
    }
  }

  /** A job submit keeps ids unique under the same freshness condition. */
  lemma SubmitJobKeepsIdsUnique(jobs: seq<Job>, ed: Editor<JobForm>, save: FileSave, now: nat, today: string)
    requires UniqueIds(jobs, JobId)
    requires !Editing(ed.editing) ==> !HasId(jobs, MintId(now), JobId)
    ensures UniqueIds(SubmitJob(jobs, ed, save, now, today), JobId)
  {
    if !save.SaveFailed? {
      if Editing(ed.editing) {
        var f := JobEditor(ed.form, SavedId(save), today);
        UpdatePreservesIds(jobs, ed.editing.value, JobId, f);
      } else {
        AppendPreservesUnique(jobs, NewJob(ed.form, SavedId(save), now, today), JobId);
      }
    }
  }

  /**
   * Two works created at different clock readings get different ids, so the
   * second creation is fresh whenever the first was.
   */
  lemma SuccessiveCreatesKeepIdsUnique(books: seq<Book>, form1: BookForm, form2: BookForm, now1: nat, now2: nat)
    requires UniqueIds(books, BookId) && !HasId(books, MintId(now1), BookId) && !HasId(books, MintId(now2), BookId)
    requires now1 != now2
    ensures UniqueIds(SubmitBook(SubmitBook(books, Editor(form1, None), NoFile, now1), Editor(form2, None), NoFile, now2), BookId)
  {
    var once := SubmitBook(books, Editor(form1, None), NoFile, now1);
    SubmitBookKeepsIdsUnique(books, Editor(form1, None), NoFile, now1);
    DecimalInjective(now1, now2);
    assert !HasId(once, MintId(now2), BookId) by {
      forall i | 0 <= i < |once| ensures once[i].id != MintId(now2) {
        if i > 0 {
          assert once[i] == books[i - 1];
        }
      }
    }
    SubmitBookKeepsIdsUnique(once, Editor(form2, None), NoFile, now2);
  }

  /**
   * A new work with no file and a real external URL stores that URL trimmed,
   * stores no file id, and its document opens that URL whatever the file
   * store holds.
   */
  lemma CreatedBookOpensExternalUrl(books: seq<Book>, form: BookForm, now: nat, files: Files)
    requires !AllSpace(form.externalUrl) && Trim(form.externalUrl) != NoLink
    ensures SubmitBook(books, Editor(form, None), NoFile, now)[0].pdfUrl == Some(Trim(form.externalUrl))
    ensures SubmitBook(books, Editor(form, None), NoFile, now)[0].pdfFileId.None?
    ensures BookDocument(files, SubmitBook(books, Editor(form, None), NoFile, now)[0]) == OpenLink(Trim(form.externalUrl))
  {
  }

  /** The example of a work titled "رواية تجريبية" with the link "https://example.com/x.pdf". */
  lemma ExampleWorkOpensItsLink(books: seq<Book>, now: nat, files: Files)
    ensures var form := BookForm("رواية تجريبية", "", Novel, "", "", "https://example.com/x.pdf", "");
      BookDocument(files, SubmitBook(books, Editor(form, None), NoFile, now)[0]) == OpenLink("https://example.com/x.pdf")
  {
    var url := "https://example.com/x.pdf";
    assert Trimmed(url) && url != "" && !IsSpace(url[0]);
    var form := BookForm("رواية تجريبية", "", Novel, "", "", url, "");
    CreatedBookOpensExternalUrl(books, form, now, files);
  }

  /**
   * A new work whose file was stored opens the stored file, even when an
   * external URL was also given.
   */
  lemma CreatedBookOpensStoredFile(books: seq<Book>, form: BookForm, files: Files, id: string, upload: Upload,
                                   stamp: int, now: nat)
    requires id != ""
    ensures BookDocument(SaveFile(files, id, upload, stamp), SubmitBook(books, Editor(form, None), Saved(id), now)[0])
      == OpenBlob(upload)
  {
  }

  /**
   * Editing a work without picking a file and with the external URL left
   * blank keeps its document: it opens exactly what it opened before.
   */
  lemma EditWithoutFileKeepsDocument(books: seq<Book>, ed: Editor<BookForm>, now: nat, files: Files, i: nat)
    requires Editing(ed.editing) && AllSpace(ed.form.externalUrl)
    requires i < |books|
    ensures BookDocument(files, SubmitBook(books, ed, NoFile, now)[i]) == BookDocument(files, books[i])
  {
  }

  /** A job edited with a newly stored file opens that file; without one it opens what it opened before. */
  lemma EditedJobDocument(jobs: seq<Job>, ed: Editor<JobForm>, save: FileSave, now: nat, today: string,
                          files: Files, i: nat)
    requires Editing(ed.editing) && i < |jobs| && jobs[i].id == ed.editing.value
    requires !save.SaveFailed?
    ensures save.NoFile? ==> JobDocument(files, SubmitJob(jobs, ed, save, now, today)[i]) == JobDocument(files, jobs[i])
    ensures save.Saved? && save.fileId != "" && save.fileId in files ==>
      JobDocument(files, SubmitJob(jobs, ed, save, now, today)[i]) == OpenBlob(files[save.fileId].file)
  {
  }
}
