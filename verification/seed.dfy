/** The storage keys and the built-in records written on first start. */
module Seed {
  import opened Wrappers
  import opened Records
  import opened IdLists

  const BooksKey: string := "kutuby_books"
  const PartnersKey: string := "rufoof_partners"
  const JobsKey: string := "rufoof_jobs"

  // Texts of the built-in records.
  const Book1Title: string := "ثلاثية غرناط"
  const Book1Author: string := "رضوى عاشور"
  const Book1Text: string := "رواية تحمل هم التاريخ والذاكرة، تروي قصة سقوط الأندلس من خلال عائلة موريسكية تعيش مأساة الرحيل والبقاء."
  const Book2Title: string := "مبادرة القراءة للجميع"
  const Book2Author: string := "فريق الشباب"
  const Book2Text: string := "حملة تهدف إلى نشر ثقافة القراءة في الأماكن العامة وتوفير الكتب بأسعار رمزية للطلاب."
  const Book3Title: string := "ساق البامبو"
  const Book3Author: string := "سعود السنعوسي"
  const Book3Text: string := "رواية تبحث في إشكاليات الهوية والانتماء من خلال قصة شاب يحمل ملامح فلبينية واسم كويتي."
  const Partner1Name: string := "وزارة الثقافة"
  const Partner1Text: string := "الراعي الرسمي للمبادرات الثقافية والشبابية."
  const Partner1Logo: string := "https://ui-avatars.com/api/?name=وزارة+الثقافة&background=4f46e5&color=fff&size=128"
  const Partner2Name: string := "دار المعرفة"
  const Partner2Text: string := "شريك استراتيجي في توفير الكتب والمراجع."
  const Partner2Logo: string := "https://ui-avatars.com/api/?name=دار+المعرفة&background=0d9488&color=fff&size=128"
  const Partner3Name: string := "نادي القراء"
  const Partner3Text: string := "مجتمع شبابي يهتم بمناقشة الكتب والروايات."
  const Partner3Logo: string := "https://ui-avatars.com/api/?name=نادي+القراء&background=e11d48&color=fff&size=128"
  const Job1Title: string := "منسق فعاليات ثقافية"
  const Job1Text: string := "نبحث عن شخص مبدع لتنسيق الفعاليات الثقافية الشهرية."
  const Job2Title: string := "مدقق لغوي"
  const Job2Text: string := "مطلوب مدقق لغوي ذو خبرة لمراجعة النصوص المنشورة."

  /**
   * The three built-in works. Their timestamps are offsets from `clock`, the
   * reading of `Date.now()` taken when the application module is evaluated.
   */
  function InitialBooks(clock: int): (r: seq<Book>)
    ensures |r| == 3 && UniqueIds(r, BookId)
    ensures forall i :: 0 <= i < |r| ==> r[i].dateAdded <= clock && r[i].pdfUrl.None? && r[i].pdfFileId.None?
  {
    [ Book("1", Book1Title, Book1Author, Novel, Book1Text,
        "https://picsum.photos/400/600?random=1", None, None, None, None, clock - 10000000),
      Book("2", Book2Title, Book2Author, Initiative, Book2Text,
        "https://picsum.photos/400/600?random=2", None, None, None, None, clock - 5000000),
      Book("3", Book3Title, Book3Author, Novel, Book3Text,
        "https://picsum.photos/400/600?random=3", None, None, None, None, clock) ]
  }

  const InitialPartners: seq<Partner> := [
    Partner("1", Partner1Name, Partner1Text, Partner1Logo, None),
    Partner("2", Partner2Name, Partner2Text, Partner2Logo, None),
    Partner("3", Partner3Name, Partner3Text, Partner3Logo, None)
  ]

  const InitialJobs: seq<Job> := [
    Job("1", Job1Title, "2023-10-15", Some(Job1Text), NoLink, None, "Job_Description_Coordinator.pdf"),
    Job("2", Job2Title, "2023-11-01", Some(Job2Text), NoLink, None, "Job_Description_Editor.pdf")
  ]

  /** Every seed list is non-empty, so the save policy always writes it back, and its ids are unique. */
  lemma SeedsWellFormed(clock: int)
    ensures |InitialBooks(clock)| > 0 && |InitialPartners| > 0 && |InitialJobs| > 0
    ensures UniqueIds(InitialPartners, PartnerId) && UniqueIds(InitialJobs, JobId)
  {
  }
}
