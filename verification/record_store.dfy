/**
 * The browser's key-value area holding the three collections, the load
 * effect run once on mount, and the save effect run after every change.
 * Each fixed key is one slot; serialization is abstracted, so a slot that
 * parses holds the record list itself.
 */
module RecordStore {
  import opened Records
  import opened Seed

  /**
   * What `localStorage.getItem(key)` finds: nothing, a string that does not
   * parse as a record list (possibly the empty string), or a serialized list.
   */
  datatype Slot<T> = Missing | Text(raw: string) | Json(items: seq<T>)

  /** The value under each of the keys "kutuby_books", "rufoof_partners" and "rufoof_jobs". */
  datatype LocalStore = LocalStore(books: Slot<Book>, partners: Slot<Partner>, jobs: Slot<Job>)

  /** The three in-memory collections of the application. */
  datatype Collections = Collections(books: seq<Book>, partners: seq<Partner>, jobs: seq<Job>)

  /** The result of reading one key: the collection and the slot as left behind, or a parse exception. */
  datatype Loaded<T> = Loaded(items: seq<T>, slot: Slot<T>) | ParseFailure

  /**
   * The end of the load effect: the store as written and the collections, or
   * the exception `JSON.parse` threw for `key` together with whatever seed
   * writes already happened before it.
   */
  datatype Startup = Started(store: LocalStore, data: Collections) | Crashed(store: LocalStore, key: string)

  /** The getItem result is falsy: the key is absent or holds the empty string. */
  predicate Falsy<T>(slot: Slot<T>) {
    slot.Missing? || slot == Text("")
  }

  /** The getItem result is a non-empty string that `JSON.parse` rejects. */
  predicate Unparsable<T>(slot: Slot<T>) {
    slot.Text? && slot.raw != ""
  }

  /**
   * Reading one key. A stored list becomes the collection and stays as it is;
   * an absent (or empty) value yields the seed and writes it back under the
   * same key; any other text makes `JSON.parse` throw.
   */
  function LoadOrSeed<T>(slot: Slot<T>, seed: seq<T>): (r: Loaded<T>)
    ensures r.ParseFailure? <==> Unparsable(slot)
    ensures slot.Json? ==> r == Loaded(slot.items, slot)
    ensures Falsy(slot) ==> r.items == seed && r.slot == Json(seed)
  {
    match slot
    case Json(items) => Loaded(items, slot)
    case Missing => Loaded(seed, Json(seed))
    case Text(raw) => if raw == "" then Loaded(seed, Json(seed)) else ParseFailure
  }

  /** A second read of the same key returns the same collection and writes nothing, whatever the seed. */
  lemma LoadOrSeedStable<T>(slot: Slot<T>, seed: seq<T>, seed': seq<T>)
    requires LoadOrSeed(slot, seed).Loaded?
    ensures LoadOrSeed(LoadOrSeed(slot, seed).slot, seed') == LoadOrSeed(slot, seed)
  {
  }

  /**
   * The load effect: books, then partners, then jobs. A slot that does not
   * parse aborts the effect with the keys before it already seeded.
   */
  function Load(store: LocalStore, clock: int): (r: Startup)
    ensures r.Started? <==> (!Unparsable(store.books) && !Unparsable(store.partners) && !Unparsable(store.jobs))
    ensures r.Crashed? && r.key == BooksKey <==> Unparsable(store.books)
    ensures r.Crashed? && r.key == PartnersKey <==> !Unparsable(store.books) && Unparsable(store.partners)
    ensures r.Crashed? ==> r.key in {BooksKey, PartnersKey, JobsKey} && r.store.jobs == store.jobs
    ensures r.Crashed? && r.key == BooksKey ==> r.store == store
    ensures r.Crashed? && r.key != BooksKey ==> Falsy(store.books) ==> r.store.books == Json(InitialBooks(clock))
    ensures r.Crashed? && r.key == JobsKey ==> Falsy(store.partners) ==> r.store.partners == Json(InitialPartners)
    ensures r.Crashed? && r.key == PartnersKey ==> r.store.partners == store.partners
    ensures r.Crashed? && r.key != BooksKey && store.books.Json? ==> r.store.books == store.books
    ensures r.Crashed? && r.key == JobsKey && store.partners.Json? ==> r.store.partners == store.partners
    ensures r.Started? ==> (r.store.books == Json(r.data.books)
      && r.store.partners == Json(r.data.partners) && r.store.jobs == Json(r.data.jobs))
    ensures r.Started? && store.books.Json? ==> r.data.books == store.books.items
    ensures r.Started? && Falsy(store.books) ==> r.data.books == InitialBooks(clock)
    ensures r.Started? && store.partners.Json? ==> r.data.partners == store.partners.items
    ensures r.Started? && Falsy(store.partners) ==> r.data.partners == InitialPartners
    ensures r.Started? && store.jobs.Json? ==> r.data.jobs == store.jobs.items
    ensures r.Started? && Falsy(store.jobs) ==> r.data.jobs == InitialJobs
  {
    match LoadOrSeed(store.books, InitialBooks(clock))
    case ParseFailure => Crashed(store, BooksKey)
    case Loaded(books, booksSlot) =>
      var s1 := store.(books := booksSlot);
      match LoadOrSeed(store.partners, InitialPartners)
      case ParseFailure => Crashed(s1, PartnersKey)
      case Loaded(partners, partnersSlot) =>
        var s2 := s1.(partners := partnersSlot);
        match LoadOrSeed(store.jobs, InitialJobs)
        case ParseFailure => Crashed(s2, JobsKey)
        case Loaded(jobs, jobsSlot) =>
          Started(s2.(jobs := jobsSlot), Collections(books, partners, jobs))
  }

  /**
   * The save effect. Nothing is written while loading; afterwards each
   * collection is written under its key only when it is non-empty, so an
   * empty collection never overwrites what is stored.
   */
  function Persist(store: LocalStore, loading: bool, data: Collections): (r: LocalStore)
    ensures loading ==> r == store
    ensures !loading && |data.books| > 0 ==> r.books == Json(data.books)
    ensures !loading && |data.partners| > 0 ==> r.partners == Json(data.partners)
    ensures !loading && |data.jobs| > 0 ==> r.jobs == Json(data.jobs)
    ensures data.books == [] ==> r.books == store.books
    ensures data.partners == [] ==> r.partners == store.partners
    ensures data.jobs == [] ==> r.jobs == store.jobs
  {
    if loading then store
    else
      LocalStore(
        if |data.books| > 0 then Json(data.books) else store.books,
        if |data.partners| > 0 then Json(data.partners) else store.partners,
        if |data.jobs| > 0 then Json(data.jobs) else store.jobs)
  }

  /**
   * A second start after a successful one sees the same collections and
   * writes nothing: the seeds were written back under their keys.
   */
  lemma LoadStable(store: LocalStore, clock: int, clock': int)
    requires Load(store, clock).Started?
    ensures Load(Load(store, clock).store, clock') == Load(store, clock)
  {
  }

  /** The first run of the save effect after loading rewrites the store with what it already holds. */
  lemma PersistAfterLoadIsNoop(store: LocalStore, clock: int)
    requires Load(store, clock).Started?
    ensures Persist(Load(store, clock).store, false, Load(store, clock).data) == Load(store, clock).store
  {
  }

  /** Saving non-empty collections and starting again restores exactly those collections. */
  lemma PersistThenLoad(store: LocalStore, data: Collections, clock: int)
    requires |data.books| > 0 && |data.partners| > 0 && |data.jobs| > 0
    ensures Load(Persist(store, false, data), clock) == Started(Persist(store, false, data), data)
  {
  }

  /**
   * Emptying a collection does not survive a restart: the save effect skips
   * it, so the next load brings back the collection as it was last loaded.
   */
  lemma EmptiedBooksReturnOnReload(store: LocalStore, data: Collections, clock: int, clock': int)
    requires Load(store, clock).Started?
    requires data.books == []
    ensures Load(Persist(Load(store, clock).store, false, data), clock').Started?
    ensures Load(Persist(Load(store, clock).store, false, data), clock').data.books == Load(store, clock).data.books
  {
  }
}
