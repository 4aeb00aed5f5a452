# Rufoof content site: record collections, modelled in Dafny

The site keeps three ordered collections in the browser: works (novels and
youth initiatives, the `Book` records), partner organisations and job
postings. A single-page application loads them from the browser's
key-value storage on start, seeding built-in records under keys that are
absent. It writes each collection back after every change, but only when
the collection is non-empty. A password-gated dashboard creates, edits and
deletes records. Uploaded documents and logos go to a browser file store
keyed by a generated id, and a click on a work or job opens its stored file
first and its external link second.

This project models that collection logic as pure functions over `seq`s of
immutable record datatypes:

- `Records` holds the record types of `types.ts`.
- `Seed` holds the three storage keys and the built-in records.
- `RecordStore` models the load effect and the save effect. The key-value
  area is one typed slot per key.
- `IdLists` holds the generic prepend, append, delete-by-id and
  update-by-id operations.
- `Dashboard` holds the submit, delete and start-edit handlers.
- `FileStore` models the observable contract of the file store as a map.
- `Download` models document-reference resolution.
- `JsText` models the ECMAScript string operations the handlers rely on:
  `trim`, `a || b` on strings, and `toString` on the clock reading.
- `DashboardProperties` relates the handlers to each other, to deletion
  and to opening documents.

Some inputs become parameters:

- the clock reading `now`;
- the "today" date string;
- the outcome of saving the picked file (`FileSave`: no file, stored under
  an id, or failed);
- the object URL `getFileUrl` returned for a new logo;
- `encodeURIComponent`;
- the user's answer to the confirmation dialog.

Three facts about loading shape the model:

- The load effect does not guard `JSON.parse`. A stored value that does
  not parse therefore aborts loading (`Crashed`), keeping whatever seed
  writes already happened. Loading does not fall back to the seed.
- The storage keys are `kutuby_books`, `rufoof_partners` and
  `rufoof_jobs`.
- An absent key is seeded and written back by the load effect itself. A
  stored empty string counts as absent, because it is falsy.

The model also makes some consequences of the code explicit:

- Emptying a collection never reaches storage, so the emptied collection
  comes back on the next start (`EmptiedBooksReturnOnReload`).
- Editing a work with a blank or `#` external URL keeps its old URL, so an
  edit cannot remove a link (`BookEdit`).
- The work form's `coverName` is only ever set to the empty string
  (App.tsx:481, 528), and no input of the form sets it. The branch that
  mints a new cover on edit (App.tsx:577) is therefore never taken, and
  every edit keeps the work's cover. The model keeps the field so that
  `BookEdit` mirrors the merge as written.
- The dashboard component is declared inside the application component
  (App.tsx:464) and rendered as `<DashboardView />` (App.tsx:1320). Every
  change to a collection re-renders the application, which mounts a fresh
  dashboard. That resets its form, its editing id and its login state. The
  model describes each handler's own effect and not this remount; see
  "## Left out".

## Model

| member | source | states |
|---|---|---|
| JsText.TrimIdempotent | App.tsx:563 | trimming an already trimmed text changes nothing |
| JsText.Trim | App.tsx:563-565 | the trimmed text is a slice of the input with only ECMAScript whitespace cut off on either side; it has no leading or trailing whitespace, is empty exactly when the input is all whitespace, and leaves an already-trimmed string unchanged |
| JsText.TrimOr | App.tsx:563-565 | `s.trim() \|\| fallback` is the fallback for a blank input; otherwise it is the trimmed input, non-empty and trimmed |
| JsText.OrElse | App.tsx:704 | `a \|\| b` on strings yields `a` unless `a` is empty, in which case it yields `b` |
| JsText.FirstTruthy | App.tsx:578 | `new \|\| old` on optional strings keeps the new value only when it is present and non-empty, and keeps the old value otherwise |
| JsText.Decimal | App.tsx:590 | the decimal numeral of a clock reading is non-empty, all digits, and starts with `0` only for zero |
| JsText.DecimalRoundTrip | App.tsx:590 | reading the numeral back as a decimal number gives the clock reading it came from |
| JsText.DecimalInjective | App.tsx:654 | ids minted from distinct clock readings are distinct |
| Dashboard.MintId | App.tsx:590 | a new record's id is a non-empty digit string with no leading zero (except for zero itself) that reads back as the clock reading it was minted from (likewise at 654 and 720) |
| Seed.InitialBooks | App.tsx:43-71 | the built-in works are three records with distinct ids, no document, and timestamps no later than the clock |
| Seed.SeedsWellFormed | App.tsx:73-111 | every seed list is non-empty and the partner and job seeds have distinct ids |
| RecordStore.LoadOrSeed | App.tsx:219-224 | a stored list becomes the collection and stays stored; an absent or empty value yields the seed and writes it under the same key; any other text is a parse failure |
| RecordStore.LoadOrSeedStable | App.tsx:226-231 | reading a key a second time returns the same collection and writes nothing, whatever the seed |
| RecordStore.Load | App.tsx:214-246 | loading succeeds exactly when no key holds unparsable text; otherwise the first unparsable key in the order books, partners, jobs aborts it, with the seeds of the keys before it already written, stored lists left as they were, and the crashed key and every later key untouched; each loaded collection is its stored list or its seed, and is left stored |
| RecordStore.Persist | App.tsx:258-264 | nothing is written while loading; afterwards each non-empty collection is written under its key, and an empty one never overwrites the stored value |
| RecordStore.LoadStable | App.tsx:233-238 | a second start after a successful one returns the same collections without re-seeding or writing |
| RecordStore.PersistAfterLoadIsNoop | App.tsx:259-262 | the first save after loading leaves storage exactly as loading left it |
| RecordStore.PersistThenLoad | App.tsx:260-262 | saving non-empty collections and starting again restores exactly those collections |
| RecordStore.EmptiedBooksReturnOnReload | App.tsx:260 | an emptied works collection is not saved, so the next start brings back the works as last loaded |
| FileStore.SaveFile | services/storage.ts:28-55 | storing a file adds exactly its id, records its size as the payload length, and leaves every other entry unchanged |
| FileStore.GetFile | services/storage.ts:57-79 | a lookup finds a file exactly when its id is stored, and yields that entry's file |
| FileStore.SaveThenGet | services/storage.ts:46-68 | looking up a freshly stored file yields exactly the uploaded file |
| FileStore.SaveKeepsOthers | services/storage.ts:46 | storing under one id leaves the lookup of every other id unchanged |
| Download.ResolveDocument | App.tsx:282-295 | the blob opens exactly when the file id is non-empty and stored; otherwise the fallback URL opens exactly when it is present, non-empty and not `#`; otherwise the outcome is "file not found" |
| Download.BookDocument | App.tsx:341 | clicking a work opens the file stored under its file id when one is found, otherwise its own URL when that is usable, otherwise nothing (also at 363) |
| Download.JobDocument | App.tsx:402 | clicking a job's download button opens the file stored under its file id when one is found, otherwise its URL unless that is empty or `#` |
| Download.BlobTakesPrecedence | App.tsx:283-291 | a record with a stored blob and an external URL opens the blob, and opens the URL only once the blob is gone |
| Download.SavedBlobOpens | App.tsx:284-287 | a file stored under a non-empty id is what that id's document opens, whatever the fallback |
| Download.MissingBlobFallsBack | App.tsx:289-294 | an unknown file id is a soft miss, and the outcome is the same as having no file id |
| IdLists.Prepend | App.tsx:277 | the new record is at index 0, length grows by one, and the old records follow in order |
| IdLists.Append | App.tsx:660 | the old records keep their positions, length grows by one, and the new record is last |
| IdLists.RemoveById | App.tsx:544 | no record with the id remains, every other record is kept, the survivors keep their relative order, and the length drops by the number of matching records |
| IdLists.UpdateById | App.tsx:569-584 | the length is unchanged, records with the id are replaced by their update, and every other record stays in place |
| IdLists.FindById | App.tsx:633 | the result is absent exactly when no record has the id; otherwise it is the record at the first position with the id |
| IdLists.FirstIsFound | App.tsx:633 | `find` returns the record at the first position carrying the id |
| IdLists.FindUnique | App.tsx:633 | with unique ids, the record found for an id is the one carrying it |
| IdLists.RemoveAfterPrepend | App.tsx:276-277 | deleting the id of a freshly prepended record with a fresh id restores the collection |
| IdLists.RemoveAfterAppend | App.tsx:728 | deleting the id of a freshly appended record with a fresh id restores the collection |
| IdLists.SubsequenceReflexive | App.tsx:543 | every collection is a subsequence of itself, so the order-keeping clause of a delete also holds when the confirmation is declined and nothing is filtered |
| IdLists.RemoveAbsent | App.tsx:685 | deleting an id that no record carries changes nothing |
| IdLists.RemoveIdempotent | App.tsx:624 | deleting the same id twice is the same as deleting it once |
| IdLists.RemoveUniqueShrinksByOne | App.tsx:544 | with unique ids, deleting a present id removes exactly one record |
| IdLists.RemovePreservesUnique | App.tsx:685 | deleting keeps ids unique |
| IdLists.PrependPreservesUnique | App.tsx:277 | prepending a record with a fresh id keeps ids unique |
| IdLists.AppendPreservesUnique | App.tsx:660 | appending a record with a fresh id keeps ids unique |
| IdLists.UpdatePreservesIds | App.tsx:648-650 | an update that keeps ids keeps the id at every position, and so keeps ids unique |
| IdLists.UpdateUniqueFixpoint | App.tsx:707-716 | with unique ids, an update that leaves the targeted record as it is leaves the collection as it is |
| IdLists.UpdateFixpoint | App.tsx:569-570 | an update that leaves every matching record as it is leaves the collection as it is |
| Dashboard.DefaultsTrimmed | App.tsx:563-565 | the replacement texts for blank fields and the `#` marker are non-empty and trimmed |
| Dashboard.FinalPdfUrl | App.tsx:565 | the submitted document URL is the trimmed external URL field, or `#` when that field is blank; it is never empty, and it is `#` exactly when the field is blank or trims to `#` |
| Dashboard.NewBook | App.tsx:589-600 | a created work has id and timestamp from the clock reading; its title is the trimmed title field, or `بدون عنوان` when blank; its author is the trimmed author field, or `غير محدد` when blank; its document URL is the submitted URL; category and description come from the form, the cover is the clock-numbered placeholder, and it carries the stored file id and the form's file name |
| Dashboard.BookEdit | App.tsx:569-584 | an edit keeps id, timestamp and cover file id; a new file id or file name wins only when non-empty; a non-blank URL field other than `#` replaces the URL with its trimmed value, and otherwise the URL is kept; the cover changes only when a cover name is set, which the program never does (`coverName` is only ever `''`, App.tsx:481, 528), so in practice every edit keeps the cover |
| Dashboard.CoverUrl | App.tsx:577 | the placeholder cover is the picsum base URL followed by exactly the clock reading's decimal numeral, the same numeral a record id gets (also at 595) |
| Dashboard.AddBook | App.tsx:276-277 | the new work is first and all existing works follow in order |
| Dashboard.SubmitBook | App.tsx:549-604 | a failed upload leaves the works unchanged; an edit keeps length and every id and changes only the records with the edited id; a creation puts the new work first |
| Dashboard.StartEditBook | App.tsx:532-540 | loading a work for editing copies title, author, category and description into the form, marks its id as edited, keeps the picked file and cover names, shows a real URL as it is, and shows a missing, empty or `#` URL as an empty field |
| Dashboard.AvatarUrl | App.tsx:633 | the generated avatar URL encodes the typed name, or `P` when the name is empty, between the fixed avatar prefix and suffix |
| Dashboard.PartnerLogoUrl | App.tsx:633-638 | a stored logo with a non-empty object URL wins; otherwise an edit keeps the logo of the first partner with the edited id, or `""` when no partner has it, and a creation gets the generated avatar |
| Dashboard.PartnerEdit | App.tsx:648-650 | a partner edit keeps the id, uses `بدون اسم` for a blank name, and replaces the logo file id only with a non-empty new one |
| Dashboard.NewPartner | App.tsx:653-659 | a created partner has the clock id; its name is the trimmed name field, or `بدون اسم` when blank; its description is the form's, and it has the given logo and logo file id |
| Dashboard.SubmitPartner | App.tsx:629-663 | a failed upload leaves the partners unchanged; an edit keeps length and ids and changes only the edited records; a creation appends |
| Dashboard.StartEditPartner | App.tsx:615-620 | loading a partner for editing puts its name and description in the form and marks its id as edited |
| Dashboard.FinalDate | App.tsx:704 | the stored date is the typed date, or today's date when the field is empty |
| Dashboard.JobEdit | App.tsx:707-716 | a job edit keeps the id and external URL; a new file id or file name wins only when non-empty |
| Dashboard.NewJob | App.tsx:719-727 | a created job has the clock id; its title is the trimmed title field, or `وظيفة شاغرة` when blank; it has the form's date (or today), the form's description, the `#` URL, the stored file id and the form's file name |
| Dashboard.SubmitJob | App.tsx:690-731 | a failed upload leaves the jobs unchanged; an edit keeps length and ids and changes only the edited records; a creation appends |
| Dashboard.StartEditJob | App.tsx:675-681 | loading a job for editing copies title and date, and shows a missing description as empty |
| Dashboard.Delete | App.tsx:542-547 | a declined confirmation changes nothing; a confirmed delete leaves no record with the id, keeps all others in order, shrinks the collection by exactly the number of matching records, and resets the form when that record was being edited (the same for partners at 622-627 and jobs at 683-688) |
| DashboardProperties.NewBookIdempotent | App.tsx:563-600 | creating a work from the title, author and URL a creation stored gives back that same work |
| DashboardProperties.NewBookEditStable | App.tsx:563-600 | every created work is one an untouched edit reproduces |
| DashboardProperties.NewPartnerIdempotent | App.tsx:645-659 | creating a partner from the name a creation stored gives back that same partner |
| DashboardProperties.NewJobIdempotent | App.tsx:703-727 | creating a job from the title a creation stored gives back that same job |
| DashboardProperties.EditUnchangedBook | App.tsx:532-584 | opening a normalised work for editing and saving without changes leaves the works collection unchanged |
| DashboardProperties.BookEditFixpoint | App.tsx:569-581 | merging an untouched edit form into its work gives back that work |
| DashboardProperties.BookEditKeepsUrl | App.tsx:537 | the external URL shown in the edit form is saved back as the same URL |
| DashboardProperties.EditUnchangedPartner | App.tsx:615-650 | opening a partner for editing and saving without changes leaves the partners unchanged |
| DashboardProperties.PartnerLogoKept | App.tsx:633 | without a new logo, an edit stores the partner's current logo URL |
| DashboardProperties.PartnerEditFixpoint | App.tsx:649 | merging an untouched partner form into its partner gives back that partner |
| DashboardProperties.EditUnchangedJob | App.tsx:675-716 | opening a job that has a date and a description for editing and saving without changes leaves the jobs unchanged |
| DashboardProperties.JobEditFixpoint | App.tsx:707-715 | merging an untouched job form into its job gives back that job |
| DashboardProperties.CreateThenDeleteBook | App.tsx:589-601 | creating a work with a fresh id and then deleting it restores the works |
| DashboardProperties.CreateThenDeletePartner | App.tsx:653-660 | creating a partner with a fresh id and then deleting it restores the partners |
| DashboardProperties.CreateThenDeleteJob | App.tsx:719-728 | creating a job with a fresh id and then deleting it restores the jobs |
| DashboardProperties.SubmitBookKeepsIdsUnique | App.tsx:567-603 | a work submit keeps ids unique when the clock id of a creation is fresh |
| DashboardProperties.SubmitPartnerKeepsIdsUnique | App.tsx:647-661 | a partner submit keeps ids unique when the clock id of a creation is fresh |
| DashboardProperties.SubmitJobKeepsIdsUnique | App.tsx:706-729 | a job submit keeps ids unique when the clock id of a creation is fresh |
| DashboardProperties.SuccessiveCreatesKeepIdsUnique | App.tsx:590 | two works created at different clock readings never share an id |
| DashboardProperties.CreatedBookOpensExternalUrl | App.tsx:565-596 | a new work with no file and a real external URL stores the trimmed URL and no file id, and opening it opens that URL |
| DashboardProperties.ExampleWorkOpensItsLink | App.tsx:589-601 | a work titled "رواية تجريبية" created with the link "https://example.com/x.pdf" and no file opens that link |
| DashboardProperties.CreatedBookOpensStoredFile | App.tsx:552-597 | a new work whose file was stored opens that file, even when an external URL was also given |
| DashboardProperties.EditWithoutFileKeepsDocument | App.tsx:578-579 | an edit with no new file and a blank URL field leaves every work's document outcome unchanged |
| DashboardProperties.EditedJobDocument | App.tsx:713 | an edited job opens a newly stored file, and without one it opens what it opened before |

## Left out

- Rendering, views, navigation, dark mode, the mobile menu, the intro animation, alerts, and the view switch after adding a work. These are presentation only.
- The password check of the dashboard login. It is a fixed string comparison.
- The generated-description call (`services/geminiService.ts`). It is a remote call to a foreign service, and its result only fills the form's description field.
- Resetting the form fields after a submit. Only the effect on the editing id is modelled, and only for delete.
- `JSON.stringify` and `JSON.parse`. A slot holds either a record list or unparsable text. Valid JSON that is not a record list (for example `null`) is not modelled.
- The file store's connection handling (`initDB` promise memoisation, transactions, error logging), `deleteFile`, and the transient object URLs. The store is a map from id to entry, and opening a blob is modelled as opening its file.
- `getFileUrl` rejecting inside `handleDownloadFile`, which leaves an unhandled rejection and opens nothing. The model's lookup always answers.
- Dashboard.SubmitBook: creating a work reads `Date.now()` three times: for the id, the cover URL and the timestamp (App.tsx:590, 595, 599). These reads may differ by a millisecond, but the model takes one clock reading for all three. Partner and job creation read the clock once, for the id (App.tsx:654, 720). The job's default date comes from a separate `new Date()` (App.tsx:704) and is its own `today` parameter.
- Dashboard.PartnerLogoUrl: `encodeURIComponent` is a parameter, not a definition.
- Dashboard.Delete: the editing-id result describes only the handler's own reset. Every collection change remounts the dashboard component, which clears the editing id, the form and the login whatever the handler does. Component identity and remounting are React behaviour, which the model does not include.
- Seed.InitialBooks: the built-in works' timestamps read `Date.now()` three times, when the module is loaded (App.tsx:51, 60, 69). The model takes one clock reading for all three, so the offsets are exact. In the program, later reads may be a millisecond later.
- Dashboard.SubmitPartner: a newly stored logo's object URL (`URL.createObjectURL`, App.tsx:638) is saved as the partner's `logoUrl` and written to storage with the record. Such a URL belongs to the page session that minted it, so after a reload the stored logo URL no longer resolves. The model treats the URL as an opaque string and does not model its lifetime. The partner's `logoFileId` is never used to show a logo; the partners view shows `logoUrl` only (App.tsx:449-450). So the stored file cannot restore the logo either.
- Id freshness: the model does not prove that a clock-based id is fresh. The id-uniqueness lemmas require a creation's clock id to be fresh.
