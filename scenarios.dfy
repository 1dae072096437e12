/** The resolvers over the data the service is started with. */
module Scenarios {
  import opened Collections
  import opened Library
  import opened Resolvers

  /** The sample books by position. */
  const HarryPotter: Book := SampleBooks[0]
  const JurassicPark: Book := SampleBooks[1]
  const JurassicWorld: Book := SampleBooks[2]

  /** Filtering the sample books, one book at a time. */
  lemma FilterSampleBooks(market: string)
    ensures Filter(SampleBooks, SoldIn(market)) ==
      (if market in HarryPotter.markets then [HarryPotter] else []) +
      (if market in JurassicPark.markets then [JurassicPark] else []) +
      (if market in JurassicWorld.markets then [JurassicWorld] else [])
  {
    var p := SoldIn(market);
    var s0, s1, s2 := [HarryPotter, JurassicPark, JurassicWorld], [JurassicPark, JurassicWorld], [JurassicWorld];
    assert SampleBooks == s0;
    assert s0[1..] == s1 && s1[1..] == s2 && s2[1..] == [];
    FilterCons(s2, p);
    FilterCons(s1, p);
    FilterCons(s0, p);
  }

  /** Sweden lists books 1 and 3. */
  lemma AvailableBooksInSweden()
    ensures AvailableBooksByMarket(Sample, "SE") == [HarryPotter, JurassicWorld]
  {
    FilterSampleBooks("SE");
    assert "SE" !in JurassicPark.markets;
  }

  /** England lists books 1 and 2. */
  lemma AvailableBooksInEngland()
    ensures AvailableBooksByMarket(Sample, "EN") == [HarryPotter, JurassicPark]
  {
    FilterSampleBooks("EN");
    assert "EN" !in JurassicWorld.markets;
  }

  /** A code that no book lists gives no books rather than an error. */
  lemma AvailableBooksInUnknownMarket()
    ensures AvailableBooksByMarket(Sample, "DE") == []
  {
    FilterSampleBooks("DE");
    assert "DE" != "SE" && "DE" != "EN";
  }

  /** Book 1 is sold in Sweden and England, referenced by id only. */
  lemma MarketsOfBookOne()
    ensures AvailableMarketsForBook(Sample, "1") == Ok([MarketRef("SE"), MarketRef("EN")])
  {
    assert IsFirstIndex(Sample.books, BookIdIs("1"), 0);
    var r := AvailableMarketsForBook(Sample, "1");
    assert r.Ok?;
    assert |r.value| == 2;
    assert Sample.books[0].markets == ["SE", "EN"];
    assert r.value[0] == MarketRef("SE");
    assert r.value[1] == MarketRef("EN");
    assert r.value == [MarketRef("SE"), MarketRef("EN")];
  }

  /** An unknown book is an error. */
  lemma MarketsOfUnknownBook()
    ensures AvailableMarketsForBook(Sample, "4") == Err(UnknownBook("4"))
  {
  }

  /** Looking up the sample books by id. */
  lemma SampleBookLookups()
    ensures Find(Sample.books, BookIdIs("1")) == Some(HarryPotter)
    ensures Find(Sample.books, BookIdIs("3")) == Some(JurassicWorld)
  {
    assert IsFirstIndex(Sample.books, BookIdIs("1"), 0);
    assert "3" != "1" && "3" != "2";
    assert IsFirstIndex(Sample.books, BookIdIs("3"), 2);
  }

  /** Looking up one id, or two ids, one after the other. */
  lemma LookupOneOrTwo(books: seq<Book>, a: string, b: string)
    ensures LookupBooks(books, [a]) == [Find(books, BookIdIs(a))]
    ensures LookupBooks(books, [a, b]) == [Find(books, BookIdIs(a)), Find(books, BookIdIs(b))]
  {
  }

  /** User 1 read book 3 and then book 1, and the stored order is kept. */
  lemma LatestReadBooksOfUserOne()
    ensures LatestReadBooks(Sample, "1") == Ok([Some(JurassicWorld), Some(HarryPotter)])
  {
    var doc := Sample.userBooks[0];
    assert Find(Sample.userBooks, HistoryIdIs("1")) == Some(doc) by {
      assert IsFirstIndex(Sample.userBooks, HistoryIdIs("1"), 0);
    }
    assert EntryIds(doc.readBooks) == ["3", "1"];
    LookupOneOrTwo(Sample.books, "3", "1");
    SampleBookLookups();
  }

  /** User 2 has read nothing. */
  lemma LatestReadBooksOfUserTwo()
    ensures LatestReadBooks(Sample, "2") == Ok([])
  {
  }

  /** An unknown account is an error, not an empty list. */
  lemma LatestReadBooksOfUnknownUser()
    ensures LatestReadBooks(Sample, "nonexistent-id") == Err(UnknownUser("nonexistent-id"))
  {
  }

  /** The most popular book in Sweden is book 3. */
  lemma PopularBooksInSweden()
    ensures PopularBooksByMarket(Sample, "SE") == Ok([Some(JurassicWorld)])
  {
    assert Find(Sample.bookCollections, IsPopularIn("SE")) == Some(Sample.bookCollections[0]) by {
      assert IsFirstIndex(Sample.bookCollections, IsPopularIn("SE"), 0);
    }
    LookupOneOrTwo(Sample.books, "3", "1");
    SampleBookLookups();
  }

  /** The most popular book in England is book 1. */
  lemma PopularBooksInEngland()
    ensures PopularBooksByMarket(Sample, "EN") == Ok([Some(HarryPotter)])
  {
    assert Find(Sample.bookCollections, IsPopularIn("EN")) == Some(Sample.bookCollections[1]) by {
      assert "EN" != "SE";
      assert IsFirstIndex(Sample.bookCollections, IsPopularIn("EN"), 1);
    }
    LookupOneOrTwo(Sample.books, "1", "3");
    SampleBookLookups();
  }

  /** A market without a 'mostpopular' collection is an error. */
  lemma PopularBooksInUnknownMarket()
    ensures PopularBooksByMarket(Sample, "DE") == Err(UnknownCollection("DE"))
  {
  }

  /** `users { latestreadbooks }` on the sample data: every user the root
      query hands out has a reading history, so the nested field succeeds. */
  lemma SampleUsersHaveHistories()
    ensures forall i | 0 <= i < |QueryUsers(Sample)| :: LatestReadBooks(Sample, QueryUsers(Sample)[i].accountId).Ok?
  {
    assert IsFirstIndex(Sample.userBooks, HistoryIdIs("1"), 0);
    assert IsFirstIndex(Sample.userBooks, HistoryIdIs("2"), 1);
  }
}
