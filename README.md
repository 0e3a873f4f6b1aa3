# RAG service core, modelled in Dafny

This project models the core of a retrieval-augmented chat backend. The core is
the `RAGService` of the backend: its document store, its top-k vector search,
its chat turn and its sales-analytics shortcut. Around it sit:

- the language-model wrapper (`OpenAIService`);
- the documents HTTP routes;
- the bulk-text parser of the documents tab in the frontend;
- the shared data contracts.

The MongoDB collections are sequences. The OpenAI endpoints, the cosine
arithmetic and `JSON.parse` are oracle functions passed as parameters:

- `Embedder`: text to an optional vector;
- `Completer`: a message list to a provider error or a reply with optional content;
- `Similarity`: two vectors to a real score;
- `Parser`: text to optional JSON.

A failing `await` becomes `None` or `ProviderError`. Every operation that
rewraps failures into one generic `Error` returns `Result<T>`, whose `Err`
carries that generic message. The clock is a parameter as well: `now`,
`clock(i)` and `messageId`.

Modules, one per file:

| file | module | models |
|---|---|---|
| wrappers.dfy | `Wrappers` | `Option`, `Result` |
| strings.dfy | `Strings` | `includes`, ASCII `toLowerCase`, `trim()` emptiness, `split`, `join` |
| ranking.dfy | `Ranking` | the stable `Array.prototype.sort` with a descending comparator; `slice(0, end)` |
| shared.dfy | `Shared` | `Document`, `SearchResult`, `ChatMessage`, `ChatResponse`, `SearchRequest`, `ChatRequest` (shared/src/index.ts:1-34) |
| openai.dfy | `OpenAI` | `getEmbedding`, system prompt, `getChatCompletion`, `getEmbeddingsForDocuments` |
| store.dfy | `Store` | the `documents` collection as a class; `addDocument`, `getDocuments` |
| retrieval.dfy | `Retrieval` | `cosineSimilarity`'s length check, `searchDocuments` |
| sales.dfy | `Sales` | `querySalesData`, `getTopCustomersByPurchaseAmount`, `getSalesSummary` |
| chat.dfy | `Chat` | `chat`: keyword routing, context, transcript |
| documents_route.dfy | `DocumentsRoute` | GET /, POST /, POST /bulk of the documents router |
| bulk_parser.dfy | `BulkParser` | `handleAddDocument` guards and the `handleBulkAdd` parser |

Shape of the model, following the source:

- The state-changing parts are imperative:
  - `Store.DocumentStore` is a class whose `documents` sequence `AddDocument` extends;
  - `searchDocuments`' scan and the top-customers `Map` aggregation are loops, each proved equal to a specification function;
  - the bulk route loops over `AddDocument`.
- Everything else is functions and lemmas.

Five behaviours of the code are modelled as written, although a reader might expect otherwise:

- Zero-norm vectors are not excluded from the ranking. `rag.ts:284` divides unconditionally. The score is an uninterpreted real, so nothing is filtered.
- Failures are not a taxonomy of kinds. `searchDocuments`, `chat` and `addDocument` each rethrow one generic `Error`. The routes do not rethrow: each catches the failure and replies with status 500 and one fixed message.
- The keyword shortcut to the sales analytics is part of `chat` and is modelled.
- The content check happens only in the single-add route, not in `addDocument`. Bulk items reach `addDocument` unchecked.
- The search limit is any integer, interpreted by `slice(0, limit)`, not a positive `k`.

## Model

| member | source | states |
|---|---|---|
| Retrieval.Search | backend/src/services/rag.ts:17-57 | the specification of `searchDocuments`: a failure carries the generic message, and a result never has more entries than there are embedded documents; `SearchFailsIff`, `SearchReturnsTopK` and `SearchResultsComeFromStore` state the rest |
| Store.Recent | backend/src/services/rag.ts:250-255 | `find().sort({createdAt: -1}).limit(limit)`: the cursor count of documents, all drawn from the store; `RecentIsNewestFirst` states the order |
| Sales.QuerySalesData | backend/src/services/rag.ts:125-150 | the no-data answer exactly for no records, a report of at most 3 customers, a summary counting every record; `SalesAnswerRouting` states the routing |
| Sales.GetSalesSummary | backend/src/services/rag.ts:203-220 | orders = number of records, unique customers = number of distinct customer ids, at most the orders; `SalesSummaryCounts` adds the revenue |
| Chat.Chat | backend/src/services/rag.ts:59-123 | a sales question always succeeds with no sources; a failure carries the generic chat message; an answer carries the given message id and at most 3 sources; `SalesQuestionsSkipRetrieval` and `OtherQuestionsRetrieveThenGenerate` state each path |
| DocumentsRoute.Outcomes | backend/src/routes/documents.ts:49-51 | one settled outcome per bulk item; `EachItemStandsAlone` states that each depends only on its own item |
| DocumentsRoute.Added | backend/src/routes/documents.ts:49-51 | the documents a bulk add stores, at most one per item; `AddedCountsFulfilled` and `EachItemStandsAlone` state which, with which ids and where |
| BulkParser.ParseBlock | frontend/src/components/DocumentsTab.tsx:53-56 | a parsed block's content holds no line break; `ParsedBlockShape` and `ThirdLinesIgnored` state the rest |
| BulkParser.PlanBulkAdd | frontend/src/components/DocumentsTab.tsx:46-60 | nothing is submitted exactly for blank input; a submission has at most one document per block, each with non-blank single-line content; `BulkPlanOutcomes` states when parsing fails |
| Strings.ContainsOccurs | backend/src/services/rag.ts:76-78 | `includes` holds exactly when the keyword occurs at some position of the string |
| Strings.SplitJoin | frontend/src/components/DocumentsTab.tsx:50-53 | joining the pieces of `split(sep)` with `sep` gives back the input, so the pieces are the input's consecutive segments in order |
| Strings.SplitAvoidsSeparator | frontend/src/components/DocumentsTab.tsx:50-53 | no piece of a split contains the separator |
| Strings.SplitPiecesLackChar | frontend/src/components/DocumentsTab.tsx:53-54 | no piece of a split on `"\n"` contains a line break |
| Strings.SplitAround | frontend/src/components/DocumentsTab.tsx:53-55 | splitting `a + "\n" + b` on `"\n"` gives the pieces of `a` followed by the pieces of `b` |
| Ranking.SortDescCorrect | backend/src/services/rag.ts:52 | the sort is a permutation, orders by non-increasing key, and leaves the elements of equal key in their input order (stability) |
| Ranking.StableSortIsUnique | backend/src/services/rag.ts:52 | any sequence that is a permutation sorted by non-increasing key with every equal-key group in input order is exactly the modelled sort, so the stable comparator sort has one possible result |
| Ranking.SliceEnd | backend/src/services/rag.ts:52 | `slice(0, end)` keeps `min(end, n)` elements for `end >= 0` and drops `-end` elements from the back for negative `end` |
| Ranking.TakeOfSorted | backend/src/services/rag.ts:52 | a prefix of a sorted sequence is sorted, keeps the leading part of each equal-key group, and no element left out has a larger key than a kept one |
| OpenAI.GetEmbedding | backend/src/services/openai.ts:19-31 | succeeds exactly when the provider returns a vector, and then returns it; a provider failure is the generic embedding error, never a fallback |
| OpenAI.SystemPrompt | backend/src/services/openai.ts:38-40 | an absent or empty context gives exactly "You are a helpful assistant."; a non-empty one gives the fixed preamble followed by the context, which ends the prompt |
| OpenAI.ProviderRequest | backend/src/services/openai.ts:42-44 | the provider receives one system message carrying the system prompt, then the caller's messages unchanged and in order |
| OpenAI.ReplyText | backend/src/services/openai.ts:49 | the reply is the content when it is present and non-empty, and "No response generated" otherwise; it is never empty |
| OpenAI.GetChatCompletion | backend/src/services/openai.ts:33-54 | fails exactly when the provider fails, with the generic chat error; otherwise returns `ReplyText` of the reply's content: the content when present and non-empty, else the placeholder |
| OpenAI.GetEmbeddingsForDocuments | backend/src/services/openai.ts:56-73 | same number of documents in the same order; id, content and metadata kept; the embedding is replaced when embedding succeeds; the document is unchanged when it fails |
| Store.CursorCount | backend/src/services/rag.ts:250-255 | a cursor limit of 0 yields all documents; any other limit yields at most its absolute value |
| Store.RecentIsNewestFirst | backend/src/services/rag.ts:250-255 | the listing has the cursor count of stored documents, ordered newest first, and no document left out is newer than a listed one |
| Store.NewestListedFirst | backend/src/services/rag.ts:232-239 | a document created after every stored one is the single document a listing with limit 1 returns |
| Store.DocumentStore.AddDocument | backend/src/services/rag.ts:222-245 | on a successful embedding, appends exactly the new document (content, metadata, embedding, creation time, next id) and returns its id text; on failure, stores nothing and returns the generic add error; the id invariant is kept |
| Store.DocumentStore.GetDocuments | backend/src/services/rag.ts:247-267 | returns the shared view of the documents that `find().sort({createdAt: -1}).limit(limit)` yields, one per listed document |
| Retrieval.CosineSimilarity | backend/src/services/rag.ts:269-272 | vectors of different lengths are an error, and only those |
| Retrieval.SearchDocuments | backend/src/services/rag.ts:17-57 | the scan loop returns exactly the specification `Search`: the generic error when some embedded vector has the wrong length, otherwise the sorted candidates cut at `limit` |
| Retrieval.SearchFailsIff | backend/src/services/rag.ts:23-38 | a search fails, with the generic message, exactly when the query cannot be embedded or some stored embedding's length differs from the query's; there is no partial list |
| Retrieval.CandidatesFromStore | backend/src/services/rag.ts:28-49 | one candidate per stored document that has an embedding: as many candidates as embedded documents, each scored from some embedded document, and every embedded document's scored result among them |
| Retrieval.SearchReturnsTopK | backend/src/services/rag.ts:31-52 | the result length is `slice(0, limit)` of the number of embedded documents, i.e. `min(limit, count)` for a non-negative limit; scores are non-increasing; tied scores keep store order; no candidate left out scores higher than a result |
| Retrieval.SearchResultsComeFromStore | backend/src/services/rag.ts:33-47 | every result is a stored document that has an embedding, with id, content, metadata and embedding copied and its similarity as score |
| Retrieval.TiedScoresKeepStoreOrder | backend/src/services/rag.ts:52 | with scores 1, 0, 1 for three stored documents, the top two are the first and the third, in that order |
| Sales.GetTopCustomersByPurchaseAmount | backend/src/services/rag.ts:152-190 | the `Map` aggregation loop and the sort return exactly `TopCustomers`: per-customer aggregates in first-seen order, stably sorted by descending total, cut at three |
| Sales.CustomerIdsDistinct | backend/src/services/rag.ts:159-170 | the `Map` keys are distinct, are exactly the customer ids occurring in the records, and are no more numerous than the records |
| Sales.AggregateEntries | backend/src/services/rag.ts:171-188 | each aggregate is its customer's entry (first name, summed total, distinct products), and no two aggregates are equal |
| Sales.TopCustomersShape | backend/src/services/rag.ts:182-190 | the report lists min(3, number of customers) distinct customers in non-increasing order of total |
| Sales.TopCustomersTotals | backend/src/services/rag.ts:159-174 | each reported customer occurs in the records, and its total is the sum of that customer's record totals |
| Sales.TopCustomersAreTheLargest | backend/src/services/rag.ts:189-190 | a customer left out of the report has a total no larger than any reported one |
| Sales.RevenueIsSumOfCustomerTotals | backend/src/services/rag.ts:204-207 | the summed revenue equals the sum of the per-customer totals |
| Sales.SalesSummaryCounts | backend/src/services/rag.ts:203-211 | orders = number of records, unique customers = number of distinct ids ≤ orders (positive when there are records), revenue = sum of the per-customer totals |
| Sales.SalesAnswerRouting | backend/src/services/rag.ts:125-150 | no records gives the fixed no-data answer, and only then; a query containing "top" and "customer" gets the top-customers report (1 to 3 customers, sorted, true totals); any other query gets a summary with unique customers ≤ orders |
| Chat.Transcript | backend/src/services/rag.ts:97-104 | the transcript has length of history + 1: the history's (role, content) pairs in order, then one user message with the current text |
| Chat.KeywordAnywhereRoutesToSales | backend/src/services/rag.ts:65-80 | a keyword anywhere in the message, in any letter case and even inside a longer word ("stop" contains "top"), routes it to sales |
| Chat.SalesQuestionsSkipRetrieval | backend/src/services/rag.ts:80-87 | a sales question never fails, cites no sources and carries the given message id; with no sales records it answers the fixed no-data message, otherwise the rendered `querySalesData` answer |
| Chat.OtherQuestionsRetrieveThenGenerate | backend/src/services/rag.ts:89-122 | otherwise the turn fails with the generic chat error exactly when the top-3 search or the provider fails; the sources are exactly that search's results (at most 3); the answer is the provider's reply to the system prompt built from the joined contents followed by the transcript |
| Chat.ContextJoinsInRankOrder | backend/src/services/rag.ts:92-95 | the context is "" for no sources, the content for one, and each further source adds a blank line and its content, in rank order |
| Chat.NoSourcesMeansBarePrompt | backend/src/services/rag.ts:89-118 | when a non-sales message retrieves nothing, the provider is asked with the bare system prompt followed by the transcript; the turn fails exactly when that request fails, and otherwise cites no sources and answers the reply text |
| DocumentsRoute.ListLimit | backend/src/routes/documents.ts:10 | a non-numeric or zero limit becomes 50, any other parsed number is used as is; the effective limit is never 0 |
| DocumentsRoute.ListDocuments | backend/src/routes/documents.ts:8-17 | lists the newest documents for the effective limit; without a limit, min(50, stored) of them |
| DocumentsRoute.PostDocument | backend/src/routes/documents.ts:20-38 | missing, non-string or empty content is refused with 400 and nothing is stored; otherwise 201 with the new id exactly when embedding succeeds, else 500 with nothing stored |
| DocumentsRoute.BulkAdd | backend/src/routes/documents.ts:41-67 | a non-array body is refused with 400 and nothing is stored; otherwise every item is attempted without a content check, the store gains exactly the `Added` documents, and successful + failed = number of items |
| DocumentsRoute.FulfilledCountsSuccesses | backend/src/routes/documents.ts:53-56 | `successful` is the number of fulfilled outcomes |
| DocumentsRoute.AddedCountsFulfilled | backend/src/routes/documents.ts:49-56 | as many documents are stored as outcomes are fulfilled, with consecutive ids |
| DocumentsRoute.EachItemStandsAlone | backend/src/routes/documents.ts:49-51 | an item is fulfilled exactly when its own content embeds, whatever the other items do; a fulfilled item is stored with its content, metadata and embedding right after the earlier fulfilled items |
| BulkParser.PlanAdd | frontend/src/components/DocumentsTab.tsx:29-36 | blank content sends nothing; non-empty metadata text that does not parse sends nothing; otherwise the content is sent as typed, with metadata exactly when the metadata text is non-empty |
| BulkParser.ParsedBlockShape | frontend/src/components/DocumentsTab.tsx:53-56 | a block fails exactly when its second line is non-empty and does not parse; otherwise its content is its first line, a prefix of the block without line breaks, and its metadata is present exactly when the second line is non-empty |
| BulkParser.ThirdLinesIgnored | frontend/src/components/DocumentsTab.tsx:53-56 | lines after the second do not change a block's parse |
| BulkParser.ParseBlocksAllOrNothing | frontend/src/components/DocumentsTab.tsx:50-57 | the map fails exactly when some block fails; otherwise it yields each block's document in block order |
| BulkParser.KeepNonBlankFilters | frontend/src/components/DocumentsTab.tsx:58 | the filter keeps exactly the documents with non-blank content, never more than it got, and distributes over concatenation, so order is kept |
| BulkParser.BulkPlanOutcomes | frontend/src/components/DocumentsTab.tsx:46-68 | blank input sends nothing; no request is sent exactly when some block, even one with blank content, has a non-empty second line that does not parse; otherwise at most one document per block is sent, each with non-blank single-line content parsed from some block |

## Left out

- Cosine arithmetic (`rag.ts:274-284`) is not modelled. The score is an uninterpreted real-valued oracle. Floating-point products, `Math.sqrt`, division and the NaN produced by zero-norm vectors are out of scope. A NaN comparator result would make the sort order implementation-defined.
- Text rendering is not modelled. The report and summary texts (`toFixed(2)`, template strings, `products.join(", ")`) are returned as structured values. `Chat.SalesAnswerText` leaves the rendering to a `formatReport` parameter.
- Money is not floating point. It is modelled as integer cents, so sums are exact where JavaScript numbers round.
- The database and the OpenAI SDK are not modelled as I/O. Their connection failures (`getDB` throwing, `find` or `insertOne` failing) are not modelled: the store never fails. `backend/src/config/database.ts` is not part of this model.
- `Store.DocumentStore.AddDocument` and `DocumentsRoute.BulkAdd` model ObjectIds as a counter. Ids therefore increase with insertion. Real ObjectIds are only roughly time-ordered.
- `Store.Recent` stands for Mongo's sort on `createdAt`. Documents created in the same millisecond are listed in insertion order. Mongo leaves that order unspecified.
- `DocumentsRoute.BulkAdd` runs the items one after another. `Promise.allSettled` starts them concurrently, so insertion order and creation times may differ from item order. Per-item outcomes and the counts do not depend on this.
- `DocumentsRoute.BulkAdd` takes each bulk item's `content` as a string. A non-string content or a `null` item is not modelled. A `null` item makes `doc.content` throw synchronously, which gives the 500 "Failed to add documents" reply.
- Limits are integers (`parseInt` output, `slice` bounds). Non-integer limits passed straight to `searchDocuments` from the search route are not modelled.
- A `role` string outside "user" and "assistant" is not modelled. The source casts it without a run-time check, and the datatype admits only the two roles.
- Absent metadata is `None`. The distinction between `undefined` and stored `null` is not kept.
- The search and chat routes (`backend/src/routes/search.ts`, `backend/src/routes/chat.ts`), `backend/src/index.ts` and the rest of the frontend UI are not part of this model. Their only logic, the defaults `limit = 5` and `history = []`, are parameter defaults here.
- `Date.now()` message ids, `new Date()` creation times and `console.error` logging are not modelled. Ids and times are parameters, and logging is dropped.
- The GET route's 500 path is not modelled, because the store never fails.
- The sales records are taken as well-formed. A record missing `customer` or `items` would throw, which `querySalesData` and then `chat` rewrap.
