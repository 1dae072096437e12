/** The in-memory data store of the book service: five fixed collections of
    records that are built once and never changed. */
module Library {

  /** A book; `markets` lists the codes of the markets it is sold in. */
  datatype Book = Book(id: string, title: string, author: string, markets: seq<string>)

  datatype User = User(accountId: string, name: string)

  datatype Market = Market(id: string, name: string)

  /** One entry of a reading history: a book id and an opaque timestamp. */
  datatype ReadEntry = ReadEntry(id: string, timestamp: string)

  /** The reading history of the user whose account id is `id`, in stored order. */
  datatype ReadHistory = ReadHistory(id: string, readBooks: seq<ReadEntry>)

  /** A curated list of book ids for one market. */
  datatype BookCollection = BookCollection(collectionName: string, market: string, books: seq<string>)

  /** The five collections the resolvers read. */
  datatype Store = Store(
    books: seq<Book>,
    users: seq<User>,
    markets: seq<Market>,
    userBooks: seq<ReadHistory>,
    bookCollections: seq<BookCollection>)

  /** The only collection name the popular-books resolver asks for. */
  const MostPopular: string := "mostpopular"

  const SampleBooks: seq<Book> := [
    Book("1", "Harry Potter and the Chamber of Secrets", "J.K. Rowling", ["SE", "EN"]),
    Book("2", "Jurassic Park", "Michael Crichton", ["EN"]),
    Book("3", "Jurassic World", "Michael C", ["SE"])
  ]

  const SampleUsers: seq<User> := [User("1", "kalle"), User("2", "bob")]

  const SampleMarkets: seq<Market> := [Market("SE", "Sweden"), Market("EN", "England")]

  const SampleUserBooks: seq<ReadHistory> := [
    ReadHistory("1", [ReadEntry("3", "1234"), ReadEntry("1", "54321")]),
    ReadHistory("2", [])
  ]

  const SampleBookCollections: seq<BookCollection> := [
    BookCollection(MostPopular, "SE", ["3"]),
    BookCollection(MostPopular, "EN", ["1"])
  ]

  /** The data the service is started with. */
  const Sample: Store := Store(SampleBooks, SampleUsers, SampleMarkets, SampleUserBooks, SampleBookCollections)

  /** Some book has id `id`. */
  ghost predicate HasBook(books: seq<Book>, id: string) {
    exists k | 0 <= k < |books| :: books[k].id == id
  }

  /** Some market has id `id`. */
  ghost predicate HasMarket(markets: seq<Market>, id: string) {
    exists k | 0 <= k < |markets| :: markets[k].id == id
  }

  /** No two books share an id. */
  ghost predicate UniqueBookIds(books: seq<Book>) {
    forall i, j | 0 <= i < j < |books| :: books[i].id != books[j].id
  }

  /** Referential integrity, which the data is authored to satisfy and the
      service never checks: every book id in a reading history or a
      collection names a book, and every market code of a book names a market. */
  ghost predicate ReferencesResolve(store: Store) {
    && (forall j, i | 0 <= j < |store.userBooks| && 0 <= i < |store.userBooks[j].readBooks| ::
          HasBook(store.books, store.userBooks[j].readBooks[i].id))
    && (forall j, i | 0 <= j < |store.bookCollections| && 0 <= i < |store.bookCollections[j].books| ::
          HasBook(store.books, store.bookCollections[j].books[i]))
    && (forall j, i | 0 <= j < |store.books| && 0 <= i < |store.books[j].markets| ::
          HasMarket(store.markets, store.books[j].markets[i]))
  }

  /** The sample books have distinct ids. */
  lemma SampleBookIdsDistinct()
    ensures UniqueBookIds(Sample.books)
  {
  }

  /** The sample data has no dangling reference. */
  lemma SampleReferencesResolve()
    ensures ReferencesResolve(Sample)
  {
    assert Sample.books[0].id == "1" && Sample.books[2].id == "3";
    assert HasBook(Sample.books, "1") && HasBook(Sample.books, "3");
    assert Sample.markets[0].id == "SE" && Sample.markets[1].id == "EN";
    assert HasMarket(Sample.markets, "SE") && HasMarket(Sample.markets, "EN");
  }
}
