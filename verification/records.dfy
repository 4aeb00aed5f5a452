/**
 * The three record kinds of the site (works, partners, job postings) and
 * their category. Optional fields of the TypeScript interfaces are `Option`s.
 */
module Records {
  import opened Wrappers

  /** The "no link" marker stored in a document URL field. */
  const NoLink: string := "#"

  datatype Category = Novel | Initiative | General

  /**
   * A literary work or youth initiative. `pdfUrl` is a legacy external link,
   * `pdfFileId` and `coverFileId` name blobs in the file store.
   */
  datatype Book = Book(
    id: string,
    title: string,
    author: string,
    category: Category,
    description: string,
    coverUrl: string,
    coverFileId: Option<string>,
    pdfUrl: Option<string>,
    pdfFileId: Option<string>,
    pdfName: Option<string>,
    dateAdded: int)

  datatype Partner = Partner(
    id: string,
    name: string,
    description: string,
    logoUrl: string,
    logoFileId: Option<string>)

  /** A job posting; unlike a book its external `pdfUrl` and `pdfName` are always present. */
  datatype Job = Job(
    id: string,
    title: string,
    date: string,
    description: Option<string>,
    pdfUrl: string,
    pdfFileId: Option<string>,
    pdfName: string)

  function BookId(b: Book): string { b.id }
  function PartnerId(p: Partner): string { p.id }
  function JobId(j: Job): string { j.id }
}
