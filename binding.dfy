/** How the resolvers fit together when a query nests fields: the schema
    binding hands a parent's id to a resolver, so a user's read books can be
    followed by each book's markets. Also what the data invariants buy. */
module Binding {
  import opened Collections
  import opened Library
  import opened Resolvers

  /** A book handed out by a lookup can be looked up again by its own id:
      the markets resolver then succeeds and lists that book's markets. */
  lemma {:induction false} FoundBookHasMarkets(store: Store, id: string, b: Book)
    requires IsFirstMatch(store.books, BookIdIs(id), Some(b))
    ensures AvailableMarketsForBook(store, b.id) == Ok(RefsOf(b.markets))
  {
    FirstMatchFound(store.books, BookIdIs(id), b);
    var j :| 0 <= j < |store.books| && store.books[j].id == id;
    FirstIndexExists(store.books, BookIdIs(id), j);
    var k :| IsFirstIndex(store.books, BookIdIs(id), k) && k <= j;
    assert store.books[k] == b;
    var r := AvailableMarketsForBook(store, b.id);
    assert r.Ok? && |r.value| == |b.markets|;
    assert r.value == RefsOf(b.markets);
  }

  /** Every book in a user's latest read books has markets: the nested
      `availableMarkets` field succeeds on it and lists that book's markets. */
  lemma {:induction false} ReadBooksHaveMarkets(store: Store, accountId: string)
    requires LatestReadBooks(store, accountId).Ok?
    ensures var read := LatestReadBooks(store, accountId).value;
      forall i | 0 <= i < |read| && read[i].Some? ::
        AvailableMarketsForBook(store, read[i].value.id) == Ok(RefsOf(read[i].value.markets))
  {
    var read := LatestReadBooks(store, accountId).value;
    var j :| 0 <= j < |store.userBooks| && store.userBooks[j].id == accountId;
    FirstIndexExists(store.userBooks, HistoryIdIs(accountId), j);
    var k :| IsFirstIndex(store.userBooks, HistoryIdIs(accountId), k) && k <= j;
    forall i | 0 <= i < |read| && read[i].Some?
      ensures AvailableMarketsForBook(store, read[i].value.id) == Ok(RefsOf(read[i].value.markets))
    {
      FoundBookHasMarkets(store, store.userBooks[k].readBooks[i].id, read[i].value);
    }
  }

  /** The nested query `users { latestreadbooks { availableMarkets } }` for
      one account: for each read book its market references, and nothing
      for a read entry that names no book. */
  function ReadBooksMarkets(store: Store, accountId: string): (r: Result<seq<Option<seq<MarketRef>>>>)
    ensures r.Err? <==> forall j | 0 <= j < |store.userBooks| :: store.userBooks[j].id != accountId
    ensures r.Err? ==> r.error == UnknownUser(accountId)
    ensures r.Ok? ==>
      var read := LatestReadBooks(store, accountId).value;
      && |r.value| == |read|
      && forall i | 0 <= i < |read| ::
           r.value[i] == if read[i].Some? then Some(RefsOf(read[i].value.markets)) else None
  {
    match LatestReadBooks(store, accountId)
    case Err(e) => Err(e)
    case Ok(read) =>
      ReadBooksHaveMarkets(store, accountId);
      Ok(seq(|read|, i requires 0 <= i < |read| =>
        match read[i]
        case None => None
        case Some(b) =>
          match AvailableMarketsForBook(store, b.id)
          case Ok(refs) => Some(refs)
          case Err(_) => None))
  }

  /** With distinct book ids the two market resolvers agree: a book is
      available in a market exactly when that market is among the book's
      market references. */
  lemma {:induction false} AvailabilityAgrees(store: Store, market: string, b: Book)
    requires UniqueBookIds(store.books)
    ensures b in AvailableBooksByMarket(store, market) <==>
      && b in store.books
      && AvailableMarketsForBook(store, b.id).Ok?
      && MarketRef(market) in AvailableMarketsForBook(store, b.id).value
  {
  }

  /** Every id in `ids` names a book. */
  ghost predicate AllNameBooks(books: seq<Book>, ids: seq<string>) {
    forall i | 0 <= i < |ids| :: HasBook(books, ids[i])
  }

  /** Looking up ids that all name books gives a book for each of them. */
  lemma {:induction false} ResolvedIdsGiveBooks(books: seq<Book>, ids: seq<string>)
    requires AllNameBooks(books, ids)
    ensures forall i | 0 <= i < |ids| :: LookupBooks(books, ids)[i].Some?
  {
  }

  /** When every reference resolves, a user's latest read books contain no
      undefined entry. */
  lemma {:induction false} ConsistentReadHistoryHasNoGaps(store: Store, accountId: string)
    requires ReferencesResolve(store)
    ensures LatestReadBooks(store, accountId).Ok? ==>
      forall i | 0 <= i < |LatestReadBooks(store, accountId).value| :: LatestReadBooks(store, accountId).value[i].Some?
  {
    var r := LatestReadBooks(store, accountId);
    if r.Ok? {
      var j :| 0 <= j < |store.userBooks| && store.userBooks[j].id == accountId;
      FirstIndexExists(store.userBooks, HistoryIdIs(accountId), j);
      var k :| IsFirstIndex(store.userBooks, HistoryIdIs(accountId), k) && k <= j;
      var ids := EntryIds(store.userBooks[k].readBooks);
      assert AllNameBooks(store.books, ids);
      ResolvedIdsGiveBooks(store.books, ids);
      forall i | 0 <= i < |r.value|
        ensures r.value[i].Some?
      {
        FirstMatchUnique(store.books, BookIdIs(ids[i]), r.value[i], LookupBooks(store.books, ids)[i]);
      }
    }
  }

  /** When every reference resolves, a market's popular books contain no
      undefined entry. */
  lemma {:induction false} ConsistentCollectionHasNoGaps(store: Store, marketId: string)
    requires ReferencesResolve(store)
    ensures PopularBooksByMarket(store, marketId).Ok? ==>
      forall i | 0 <= i < |PopularBooksByMarket(store, marketId).value| :: PopularBooksByMarket(store, marketId).value[i].Some?
  {
    var r := PopularBooksByMarket(store, marketId);
    if r.Ok? {
      var j :| 0 <= j < |store.bookCollections| && IsPopularIn(marketId)(store.bookCollections[j]);
      FirstIndexExists(store.bookCollections, IsPopularIn(marketId), j);
      var k :| IsFirstIndex(store.bookCollections, IsPopularIn(marketId), k) && k <= j;
      var ids := store.bookCollections[k].books;
      assert AllNameBooks(store.books, ids);
      ResolvedIdsGiveBooks(store.books, ids);
      forall i | 0 <= i < |r.value|
        ensures r.value[i].Some?
      {
        FirstMatchUnique(store.books, BookIdIs(ids[i]), r.value[i], LookupBooks(store.books, ids)[i]);
      }
    }
  }

  /** `books { availableMarkets }`: with distinct book ids, every book the
      root query hands out resolves its nested markets field to its own
      market references. */
  lemma {:induction false} RootBooksHaveMarkets(store: Store)
    requires UniqueBookIds(store.books)
    ensures forall i | 0 <= i < |QueryBooks(store)| ::
      AvailableMarketsForBook(store, QueryBooks(store)[i].id) == Ok(RefsOf(QueryBooks(store)[i].markets))
  {
    forall i | 0 <= i < |store.books|
      ensures AvailableMarketsForBook(store, store.books[i].id) == Ok(RefsOf(store.books[i].markets))
    {
      assert IsFirstIndex(store.books, BookIdIs(store.books[i].id), i);
    }
  }

  /** `markets { availablebooks }`: every book a root market lists is a
      stored book sold in that market, and every stored book sold there is
      listed. */
  lemma {:induction false} RootMarketsListTheirBooks(store: Store, k: int, b: Book)
    requires 0 <= k < |QueryMarkets(store)|
    ensures b in AvailableBooksByMarket(store, QueryMarkets(store)[k].id) <==>
      b in QueryBooks(store) && QueryMarkets(store)[k].id in b.markets
  {
  }
}
