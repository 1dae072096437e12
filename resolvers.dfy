/** The four relation resolvers of the book service and the root query
    resolvers. Each one is a pure function of the data store and its
    argument. A lookup that finds nothing, which the service dereferences
    unchecked, is reported here as a `NotFound` error. */
module Resolvers {
  import opened Collections
  import opened Library

  /** The id-only market value handed out for a book's markets: it carries
      no name, so the name cannot be selected in a nested query. */
  datatype MarketRef = MarketRef(id: string)

  /** The lookups that can miss, one per lookup-based resolver. */
  datatype NotFound =
    | UnknownUser(accountId: string)
    | UnknownBook(bookId: string)
    | UnknownCollection(marketId: string)

  datatype Result<+T> = Ok(value: T) | Err(error: NotFound)

  /** lodash pattern `{ id }` over books. */
  function BookIdIs(id: string): Book -> bool {
    (b: Book) => b.id == id
  }

  /** lodash pattern `{ id: accountId }` over reading histories. */
  function HistoryIdIs(accountId: string): ReadHistory -> bool {
    (h: ReadHistory) => h.id == accountId
  }

  /** lodash pattern `{ market, collectionName: 'mostpopular' }`. */
  function IsPopularIn(market: string): BookCollection -> bool {
    (c: BookCollection) => c.market == market && c.collectionName == MostPopular
  }

  /** The filter test `markets.includes(market)`. */
  function SoldIn(market: string): Book -> bool {
    (b: Book) => market in b.markets
  }

  /** `find(books, { id })` for each id, in order. */
  function LookupBooks(books: seq<Book>, ids: seq<string>): (r: seq<Option<Book>>)
    ensures |r| == |ids|
    ensures forall i | 0 <= i < |r| :: IsFirstMatch(books, BookIdIs(ids[i]), r[i])
  {
    seq(|ids|, i requires 0 <= i < |ids| => Find(books, BookIdIs(ids[i])))
  }

  /** The ids of a reading history's entries, in stored order. */
  function EntryIds(entries: seq<ReadEntry>): (r: seq<string>)
    ensures |r| == |entries| && forall i | 0 <= i < |r| :: r[i] == entries[i].id
  {
    seq(|entries|, i requires 0 <= i < |entries| => entries[i].id)
  }

  /** One id-only reference per market code, in order. */
  function RefsOf(codes: seq<string>): (r: seq<MarketRef>)
    ensures |r| == |codes| && forall i | 0 <= i < |r| :: r[i].id == codes[i]
  {
    seq(|codes|, i requires 0 <= i < |codes| => MarketRef(codes[i]))
  }

  /** A user's latest read books: the first reading history with the account
      id, each entry replaced by the first book with the entry's id (`None`
      where no book has it), in the stored order, not re-sorted by timestamp.
      Fails when no reading history has the account id. */
  function LatestReadBooks(store: Store, accountId: string): (r: Result<seq<Option<Book>>>)
    ensures r.Err? <==> forall j | 0 <= j < |store.userBooks| :: store.userBooks[j].id != accountId
    ensures r.Err? ==> r.error == UnknownUser(accountId)
    ensures forall j | IsFirstIndex(store.userBooks, HistoryIdIs(accountId), j) ::
      && r.Ok?
      && |r.value| == |store.userBooks[j].readBooks|
      && forall i | 0 <= i < |r.value| ::
           IsFirstMatch(store.books, BookIdIs(store.userBooks[j].readBooks[i].id), r.value[i])
  {
    match Find(store.userBooks, HistoryIdIs(accountId))
    case None => Err(UnknownUser(accountId))
    case Some(doc) => Ok(LookupBooks(store.books, EntryIds(doc.readBooks)))
  }

  /** The books sold in a market: exactly the books whose market list
      contains the code, as often as they occur and in the order of the
      book collection. Never fails; an unknown code gives no books. */
  function AvailableBooksByMarket(store: Store, market: string): (r: seq<Book>)
    ensures forall b :: b in r <==> b in store.books && market in b.markets
    ensures forall b :: multiset(r)[b] == if market in b.markets then multiset(store.books)[b] else 0
    ensures IsSubsequence(r, store.books)
    ensures (forall j | 0 <= j < |store.books| :: market !in store.books[j].markets) ==> r == []
  {
    FilterMultiset(store.books, SoldIn(market));
    FilterMembers(store.books, SoldIn(market));
    FilterIsSubsequence(store.books, SoldIn(market));
    Filter(store.books, SoldIn(market))
  }

  /** The markets of a book: one id-only reference per market code of the
      first book with the id, in the book's order. Fails when no book has
      the id. */
  function AvailableMarketsForBook(store: Store, bookId: string): (r: Result<seq<MarketRef>>)
    ensures r.Err? <==> forall j | 0 <= j < |store.books| :: store.books[j].id != bookId
    ensures r.Err? ==> r.error == UnknownBook(bookId)
    ensures forall j | IsFirstIndex(store.books, BookIdIs(bookId), j) ::
      && r.Ok?
      && |r.value| == |store.books[j].markets|
      && forall i | 0 <= i < |r.value| :: r.value[i].id == store.books[j].markets[i]
  {
    match Find(store.books, BookIdIs(bookId))
    case None => Err(UnknownBook(bookId))
    case Some(book) => Ok(RefsOf(book.markets))
  }

  /** The popular books of a market: the first 'mostpopular' collection for
      the market, each listed id replaced by the first book with that id
      (`None` where no book has it), in the collection's order. Fails when
      the market has no such collection. */
  function PopularBooksByMarket(store: Store, marketId: string): (r: Result<seq<Option<Book>>>)
    ensures r.Err? <==> forall j | 0 <= j < |store.bookCollections| ::
      !(store.bookCollections[j].market == marketId && store.bookCollections[j].collectionName == MostPopular)
    ensures r.Err? ==> r.error == UnknownCollection(marketId)
    ensures forall j | IsFirstIndex(store.bookCollections, IsPopularIn(marketId), j) ::
      && r.Ok?
      && |r.value| == |store.bookCollections[j].books|
      && forall i | 0 <= i < |r.value| ::
           IsFirstMatch(store.books, BookIdIs(store.bookCollections[j].books[i]), r.value[i])
  {
    match Find(store.bookCollections, IsPopularIn(marketId))
    case None => Err(UnknownCollection(marketId))
    case Some(collection) => Ok(LookupBooks(store.books, collection.books))
  }

  /** Root query `books`: the whole book collection, in stored order; the
      nested fields of each element start from a stored book. */
  function QueryBooks(store: Store): (r: seq<Book>)
    ensures r == store.books
  {
    store.books
  }

  /** Root query `markets`: the whole market collection, in stored order. */
  function QueryMarkets(store: Store): (r: seq<Market>)
    ensures r == store.markets
  {
    store.markets
  }

  /** Root query `users`: the whole user collection, in stored order. */
  function QueryUsers(store: Store): (r: seq<User>)
    ensures r == store.users
  {
    store.users
  }
}
