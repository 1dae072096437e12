# Book service resolvers

A model of the data layer of a small GraphQL book service (`index.js`).
The service keeps five fixed in-memory collections (books, users,
markets, per-user reading histories and curated "mostpopular" book
collections) and answers four relational questions over them:

- the latest read books of a user (`getLatestReadBooks`);
- the books available in a market (`getAvailableBooksByMarket`);
- the markets a book is available in, as id-only references
  (`getAvailableMarketsForBook`);
- the most popular books of a market (`getPopularBooksByMarket`).

Every resolver is a single expression built from lodash `find`,
`Array.prototype.filter`, `map` and `includes`, so the model is written
as Dafny datatypes, functions and lemmas:

- `collections.dfy` (module `Collections`): `Find`, lodash's first-match
  search, specified by `IsFirstMatch` (nothing exactly when no element
  matches, otherwise the first match); `Filter`, specified by its
  multiset, its members and order preservation, with a proof that
  these properties single out its result.
- `library.dfy` (module `Library`): the records, the `Store` of five
  collections, the sample data the service starts with (`Sample`), and
  the referential-integrity invariants that the data is authored to
  meet but the service never checks.
- `resolvers.dfy` (module `Resolvers`): the four resolvers and the three
  root queries `books`, `markets` and `users` (`QueryBooks`,
  `QueryMarkets`, `QueryUsers`, each of which hands out a whole stored
  collection).
- `binding.dfy` (module `Binding`): how the resolvers compose when a
  query nests fields (a user's read books, then each book's markets),
  and what the data invariants guarantee.
- `scenarios.dfy` (module `Scenarios`): the resolvers on the sample data.

The resolvers take the store as an argument; the source's module-level
constants are `Library.Sample`. The data at index.js:8-83 is held in
`const` arrays that no code mutates, so every resolver is a Dafny
function of `(store, argument)`, and no operation produces a new store.

A lookup that finds nothing is dereferenced unchecked by the source
(`doc.readBooks`, `book.markets`, `collection.books` on `undefined`),
which makes the field fail. The model returns `Err(NotFound)` there,
with one error kind per resolver (`UnknownUser`, `UnknownBook`,
`UnknownCollection`). A read entry or collection entry whose id names
no book does not fail in the source: `find` yields `undefined` inside
the mapped array. The model keeps that as a `None` element.

Two properties of the code shape the model:

- A book's `markets` is an array. Its order and any repetition are kept
  in the market references.
- The code has no `Market.name` resolver, so the name of an id-only
  market reference stays unresolved, as the comment at index.js:101
  says. `MarketRef` has only an `id` field; only the `availablebooks`
  and `mostpopularbooks` fields, which read just the id, work on it.

## Model

| member | source | states |
|---|---|---|
| `Collections.Find` | index.js:87 | lodash `find`: the result is empty exactly when no element matches the pattern; otherwise it is the first element that matches |
| `Collections.FirstMatchUnique` | index.js:3 | the first-match specification determines the result: two results that both meet it are equal |
| `Collections.FirstMatchFound` | index.js:100 | an element that `find` returns matches the pattern and belongs to the collection |
| `Collections.Filter` | index.js:96 | `Array.prototype.filter`: the result is never longer than the input; `FilterMultiset`, `FilterMembers`, `FilterIsSubsequence` and `FilterUnique` pin it down as the test-passing elements, in input order |
| `Collections.FilterMultiset` | index.js:96 | `filter` keeps every element that passes the test, as often as it occurs, and drops every element that fails |
| `Collections.FilterMembers` | index.js:96 | a value is in the filtered result exactly when it is in the input and passes the test |
| `Collections.FilterIsSubsequence` | index.js:96 | `filter` keeps the relative order of the input |
| `Collections.FilterUnique` | index.js:96 | any order-preserving selection from the input that has the filter's multiset is the filter's result, so these properties fully specify `filter` |
| `Library.SampleBookIdsDistinct` | index.js:8-27 | no two sample books share an id |
| `Library.SampleReferencesResolve` | index.js:8-83 | every book id in the sample reading histories and collections names a sample book, and every market code of a sample book names a sample market |
| `Resolvers.LookupBooks` | index.js:106 | mapping ids to `find(books, { id })` gives one result per id, in order, and each result is the first book with that id, or nothing |
| `Resolvers.RefsOf` | index.js:101 | one id-only market reference per market code, in the same order, with the same ids |
| `Resolvers.LatestReadBooks` | index.js:86-88 | fails with `UnknownUser` exactly when no reading history has the account id; otherwise it uses the first history with that id, has one element per read entry in stored order, and element i is the first book whose id is entry i's id, or nothing |
| `Resolvers.AvailableBooksByMarket` | index.js:95-97 | never fails; contains exactly the books whose market list includes the code, each as often as in the book list, in book-list order; empty when no book lists the code |
| `Resolvers.AvailableMarketsForBook` | index.js:99-102 | fails with `UnknownBook` exactly when no book has the id; otherwise it has one id-only reference per market code of the first book with that id, in that book's order |
| `Resolvers.PopularBooksByMarket` | index.js:104-106 | fails with `UnknownCollection` exactly when no collection is both named 'mostpopular' and for the market; otherwise it uses the first such collection, and element i is the first book whose id is the collection's id i, or nothing |
| `Resolvers.QueryBooks` | index.js:149 | the root `books` field hands out the whole stored book collection, in stored order |
| `Resolvers.QueryMarkets` | index.js:150 | the root `markets` field hands out the whole stored market collection, in stored order |
| `Resolvers.QueryUsers` | index.js:151 | the root `users` field hands out the whole stored user collection, in stored order |
| `Binding.FoundBookHasMarkets` | index.js:166-169 | a book returned by a lookup resolves again through its own id: the nested `availableMarkets` field succeeds and lists that book's markets |
| `Binding.ReadBooksHaveMarkets` | index.js:153-170 | every book in a user's latest read books resolves its nested `availableMarkets` field to that book's own market references |
| `Binding.ReadBooksMarkets` | index.js:153-170 | the nested query "a user's latest read books, then each book's markets" fails only on an unknown user; for each read book it gives that book's market references, and nothing where the entry names no book |
| `Binding.AvailabilityAgrees` | index.js:95-102 | when book ids are distinct, a book is available in a market exactly when the market is among the book's market references |
| `Binding.ResolvedIdsGiveBooks` | index.js:88 | looking up ids that all name books gives a book for every id |
| `Binding.ConsistentReadHistoryHasNoGaps` | index.js:86-88 | when all references resolve, a user's latest read books contain no undefined entry |
| `Binding.ConsistentCollectionHasNoGaps` | index.js:104-106 | when all references resolve, a market's popular books contain no undefined entry |
| `Binding.RootBooksHaveMarkets` | index.js:148-170 | when book ids are distinct, every book of the root `books` field resolves its nested `availableMarkets` field to its own market references |
| `Binding.RootMarketsListTheirBooks` | index.js:148-162 | a book is in the nested `availablebooks` field of a root market exactly when it is a root book that lists that market's id |
| `Scenarios.AvailableBooksInSweden` | index.js:95-97 | on the sample data, market 'SE' has books 1 and 3, in that order |
| `Scenarios.AvailableBooksInEngland` | index.js:95-97 | on the sample data, market 'EN' has books 1 and 2, in that order |
| `Scenarios.AvailableBooksInUnknownMarket` | index.js:96 | on the sample data, a code that no book lists gives no books and no error |
| `Scenarios.MarketsOfBookOne` | index.js:99-101 | on the sample data, book 1 gives the references `SE` and `EN`, in that order |
| `Scenarios.MarketsOfUnknownBook` | index.js:100-101 | on the sample data, an unknown book id gives `UnknownBook` |
| `Scenarios.LatestReadBooksOfUserOne` | index.js:86-88 | on the sample data, user 1 gets books 3 and 1, in stored order and not sorted by timestamp |
| `Scenarios.LatestReadBooksOfUserTwo` | index.js:86-88 | on the sample data, user 2 gets an empty list |
| `Scenarios.LatestReadBooksOfUnknownUser` | index.js:87-88 | on the sample data, an unknown account gives `UnknownUser`, not an empty list |
| `Scenarios.PopularBooksInSweden` | index.js:104-106 | on the sample data, the popular books of 'SE' are book 3 |
| `Scenarios.PopularBooksInEngland` | index.js:104-106 | on the sample data, the popular books of 'EN' are book 1 |
| `Scenarios.PopularBooksInUnknownMarket` | index.js:105-106 | on the sample data, a market without a 'mostpopular' collection gives `UnknownCollection` |
| `Scenarios.SampleUsersHaveHistories` | index.js:29-70 | on the sample data, every user of the root `users` field has a reading history, so the nested `latestreadbooks` field succeeds for each |

## Left out

- The HTTP server, the response-time middleware (it reads a clock and logs) and the `listen` call (index.js:178-193): I/O outside the data layer.
- The GraphQL schema text and the Apollo server (index.js:112-143, 176, 187). Parsing, validating and executing queries is the GraphQL engine's work, and that code is not part of this model. Of the field binding (index.js:153-170), only the composition "latest read books, then markets for each book" is modelled (`Binding.ReadBooksMarkets`). The other bindings only pass `parent.id` or `parent.accountId` to a resolver.
- How the GraphQL engine reports a failed field (a `null` value plus an error entry) is not modelled. The model stops at the `Err(NotFound)` result.
- lodash's `find` is modelled only by its first-match meaning, on patterns of string-valued properties. Other kinds of pattern and other collection types are not modelled.
- Reading-history timestamps are carried as opaque strings. No resolver reads them.
- Referential integrity between the collections is never checked by the service. It is a data invariant (`Library.ReferencesResolve`), and only the lemmas that require it assume it.
