# mongodb-atlas-search, modelled in Dafny

This project models the two working parts of the `mongodb-atlas-search` library.

**`BaseQuery`** turns a pagination request and the clause lists of a subclass into one
Atlas Search aggregation pipeline, runs it and wraps the single result record into a page
envelope. The pipeline has four stages: `$search`, `$sort`, `$project` and `$facet`.
`BaseQuery` also builds the clauses of a free-text search:
- one fuzzy `text` should-clause;
- one boosted `wildcard` must-clause per word;
- a sort with `score` first.

**`AtlasSearchManager`** does four things:
- It keeps one memoised database handle.
- It prepares documents for indexing and upserts each one into the collection named by its
  index. The upsert makes sure that exactly one record per `indexedDocumentId` remains.
- It tallies the successes and errors of a batch, and deletes documents by key.
- It talks to the Atlas admin API: it maps HTTP failures to error codes, finds an index id
  by name, and deletes an index.

Files, one module each:

| file | module | what |
|---|---|---|
| `wrappers.dfy` | `Wrappers` | `Option`, `Result` |
| `documents.dfy` | `Documents` | a JSON-like field value and a document (a map from field to value) |
| `js_strings.dfy` | `JsStrings` | the JavaScript string operations the code uses: `trim()`, white space as in sections 12.2 and 12.3 of ECMA-262, `split(' ')` and `split('__')[0]` |
| `query.dfy` | `Query` | `src/query/base-query.ts`: sort objects, text-search clauses, the pipeline, paging, result formatting, `run`, and the `BaseQuery` class |
| `document_store.dfy` | `DocumentStore` | the MongoDB collections the manager writes to, kept in memory: records with an `_id` (`id`) and a document, the `find` filter, the writes `insertOne`, `updateOne` with `$set` and upsert, `deleteOne` and `deleteMany`, and a `Database` class holding the collections |
| `atlas_search_manager.dfy` | `Managers` | `src/managers/atlas-search-manager.ts`: preparation, the dedupe upsert, the batch tally, delete status, the API error mapping, index lookup and deletion, and the `AtlasSearchManager` class |

How the outside world is represented:
- **The aggregation.** The driver's aggregation is a function parameter of `Run`.
- **Failing driver calls.** A `Fault` value gives the number of the first driver call that
  throws. Call 0 is the `find`, and calls 1, 2, … are the writes of the plan.
- **The HTTP client.** Its result is an `HttpOutcome`: a response with data, no response
  value, or a rejection with or without a response.
- **`MongoClient.connect`.** The handle it would open is the `connected` parameter.

## Model

| member | source | states |
|---|---|---|
| `JsStrings.Trim` | src/query/base-query.ts:210-213 | the trimmed string neither starts nor ends with white space |
| `JsStrings.TrimOnlyRemovesEnds` | src/query/base-query.ts:210-213 | trimming removes only a white-space prefix and a white-space suffix; the rest of the string is kept as it is |
| `JsStrings.Split` | src/query/base-query.ts:50 | `split` gives at least one part, and no part holds the separator |
| `JsStrings.JoinSplit` | src/query/base-query.ts:50 | joining the parts of a split with the separator gives back the string |
| `JsStrings.SplitJoin` | src/query/base-query.ts:50 | splitting a join of separator-free parts gives back the parts |
| `JsStrings.FirstSegment` | src/managers/atlas-search-manager.ts:43 | `split('__')[0]` is a prefix of the name, holds no `__`, and is either the whole name or stops right before the first `__` |
| `Query.ConvertOrder` | src/query/base-query.ts:209-220 | the direction is 1 or -1, and it is 1 exactly when the order is given and trims to `asc` |
| `Query.BuildSort` | src/query/base-query.ts:25-27 | a one-key sort on the field, with direction 1 exactly for a trimmed `asc` and -1 otherwise |
| `Query.DirectionOr` | src/query/base-query.ts:32-35 | the direction a sort gives a field, or the default when the sort lacks that field |
| `Query.SpreadKeepsScoreFirst` | src/query/base-query.ts:32-35 | spreading a sort into an object that starts with `score` keeps `score` first, with the sort's own `score` direction when it has one, followed by the other keys in order |
| `Query.SearchSortLayering` | src/query/base-query.ts:32-35 | the text-search sort starts with `score`, at -1 unless the base sort overrides it, followed by exactly the base sort's other keys in order |
| `Query.SearchSort` | src/query/base-query.ts:32-35 | whatever the base sort, even one with repeated keys, the text-search sort is non-empty and its first key is `score` |
| `Query.SpreadKeepsFirstField` | src/query/base-query.ts:32-35 | spreading any sort into a non-empty object never moves the object's first key |
| `Query.SearchSortWithoutScore` | src/query/base-query.ts:32-35 | a base sort without `score` follows `score: -1` unchanged |
| `Query.SearchTerms` | src/query/base-query.ts:50 | at least one term, none holding a space, and the terms joined by spaces are the trimmed query |
| `Query.TermClause` | src/query/base-query.ts:56-66 | a term's clause is a wildcard on the given paths, with analysed fields allowed and boost 10 |
| `Query.TermClauseShape` | src/query/base-query.ts:56-66 | a term's clause is a wildcard on the paths, with analysed fields allowed and boost 10, whose query is `*`, the trimmed term, then `*` |
| `Query.BuildTextSearchQuery` | src/query/base-query.ts:29-71 | exactly one should-clause, the fuzzy text clause on the untrimmed query (2 edits, prefix 1, 100 expansions); the layered sort; one wildcard must-clause per term, in order, at least one |
| `Query.TwoWordQuery` | src/query/base-query.ts:50-66 | `"foo bar"` gives the terms `foo` and `bar`, hence the wildcard queries `*foo*` and `*bar*` |
| `Query.BlankQuery` | src/query/base-query.ts:50-66 | an empty or blank query gives the single term `""`, hence one `**` clause |
| `Query.MinimumShouldMatch` | src/query/base-query.ts:140-159 | absent exactly when there is no should-clause; 0 exactly when every should-clause is a text clause; 1 exactly when some should-clause is not |
| `Query.ClassifyShould` | src/query/base-query.ts:143-148 | the two flags say whether some should-clause is a text clause and whether some is not |
| `Query.SearchOperatorFor` | src/query/base-query.ts:103-108 | the match-all wildcard (`*` on path wildcard `*`, analysed fields allowed) exactly when all four clause lists are empty; otherwise the compound operator with the four lists unchanged and the minimumShouldMatch rule |
| `Query.SearchPipeline` | src/query/base-query.ts:99-136 | exactly four stages; `$search` on the collection's index with the chosen operator, count type `total` and `returnStoredSource` equal to `includeSource`; `$sort` is the supplied sort; `$project` drops `_id` and `_source` and puts the search score in `score`; `$facet` with the docs branch and the meta branch (`$$SEARCH_META`, limit 1) |
| `Query.BaseQuery.BuildSearchPipeline` | src/query/base-query.ts:97-180 | the step-by-step build, which sets minimumShouldMatch, swaps in the wildcard and sets the flags, stores exactly the pipeline `SearchPipeline` describes |
| `Query.DocsBranch` | src/query/base-query.ts:125-129 | the docs branch is two steps: skip `pageNum * pageSize` documents, then limit to `pageSize` |
| `Query.DocsBranchIsPage` | src/query/base-query.ts:125-129 | for a non-negative page number and a positive page size, the docs branch yields exactly page `pageNum` of the matches, at most `pageSize` documents |
| `Query.PagesCover` | src/query/base-query.ts:125-129 | pages 0 to k - 1 in a row are exactly the first k * pageSize matches: no overlap and no gap |
| `Query.ReportedTotal` | src/query/base-query.ts:194 | the total is the first meta record's `count.total` when present and non-zero; otherwise it is 0 |
| `Query.FormatResults` | src/query/base-query.ts:182-207 | the shape error exactly when there is not exactly one result record; otherwise `items` are the formatted docs, `count` is their number, `page` and `pageSize` are passed through, `verbose` is true only for `verbose === true`, and `total` is the reported total |
| `Query.EmptyMetaTotalIsZero` | src/query/base-query.ts:194 | an empty meta branch gives a total of 0 |
| `Query.RunOutcomeAsWritten` | src/query/base-query.ts:83-93 | what the try block does as written: a failed aggregation gives code 500 with the prefix and the driver error's `toLocaleString()`; a result with other than exactly one record gives code 500 with the prefix and `[object Object]`, the `toLocaleString()` of the plain object `formatResults` throws; exactly one record gives the formatted page |
| `Query.ShapeErrorMessageLost` | src/query/base-query.ts:88-92 | as written, two result records give the message `Mongodb Query Error: [object Object]` |
| `Query.RunOutcome` | src/query/base-query.ts:83-93 | the corrected try block of the finding below, not what the source does: the same outcomes as written, except that a wrong result shape gives code 500 with the prefix and the shape error's own message |
| `Query.ShapeErrorMessageKept` | src/query/base-query.ts:88-92 | with the cause kept, two result records give `Mongodb Query Error: Unexpected Atlas Search return format` |
| `Query.BaseQuery.Run` | src/query/base-query.ts:73-94 | `run` stores the pipeline and returns what `RunOutcomeAsWritten` gives for the aggregation of that pipeline, so a wrong result shape surfaces as `Mongodb Query Error: [object Object]` |
| `DocumentStore.MatchingMembers` | src/managers/atlas-search-manager.ts:192 | `find` returns exactly the records whose `indexedDocumentId` is the key |
| `DocumentStore.OthersMembers` | src/managers/atlas-search-manager.ts:143 | `deleteMany` keeps exactly the records whose `indexedDocumentId` is not the key |
| `DocumentStore.DeleteManyRemovesAll` | src/managers/atlas-search-manager.ts:143 | after `deleteMany` no record has the key, and a second `deleteMany` changes nothing |
| `DocumentStore.FreshId` | src/managers/atlas-search-manager.ts:195 | the `_id` an insert gets is new to the collection |
| `DocumentStore.Merge` | src/managers/atlas-search-manager.ts:198 | `$set` gives every set field its new value, keeps every other field, adds no field beyond the record's and the set ones, and keeps the `_id` |
| `DocumentStore.MergeTwice` | src/managers/atlas-search-manager.ts:198 | `$set` of the same fields twice is `$set` once |
| `DocumentStore.ApplyWrite` | src/managers/atlas-search-manager.ts:195-206 | `insertOne` appends one record with the document and an `_id` new to the collection, keeping the others; `updateOne` with `upsert: true` merges the first record with the `_id` when there is one, leaving every other record in place and the `_id`s unchanged, and otherwise appends a record with that `_id` and the fields; `deleteOne` removes the first record with the `_id` when there is one, keeping the others in order, and changes nothing otherwise |
| `DocumentStore.ApplyWriteUnique` | src/managers/atlas-search-manager.ts:198-206 | with unique `_id`s, an update merges exactly the record with the `_id` and keeps every other record, and a delete leaves the `_id` absent and the `_id`s unique |
| `DocumentStore.WritesKeepIdsUnique` | src/managers/atlas-search-manager.ts:195-206 | inserts, updates and deletes keep every `_id` unique in the collection |
| `DocumentStore.Database.Find` | src/managers/atlas-search-manager.ts:192 | the records of the collection that carry the key |
| `DocumentStore.Database.Perform` | src/managers/atlas-search-manager.ts:195-206 | one write changes only the named collection, as the write prescribes |
| `DocumentStore.Database.DeleteMany` | src/managers/atlas-search-manager.ts:143 | only the named collection changes, and it loses exactly the records with the key |
| `Managers.PrepareForIndex` | src/managers/atlas-search-manager.ts:41-51 | the index is the part of `indexName` before the first `__`; the document gets `indexedDocumentId` and `indexName`, keeps every other field, and gains no other key |
| `Managers.DatedIndexName` | src/managers/atlas-search-manager.ts:43 | `content__2022_7_22__14_57_40` goes to the index `content` |
| `Managers.Prepared` | src/managers/atlas-search-manager.ts:40-51 | one prepared item per document, in order |
| `Managers.PrepareBatch` | src/managers/atlas-search-manager.ts:40-51 | the pushing loop builds exactly the prepared items, and each item's document carries its own `indexedDocumentId` |
| `Managers.Plan` | src/managers/atlas-search-manager.ts:194-209 | no match gives one insert; otherwise an update of the first match and a delete of each later match, in order |
| `Managers.WritesDone` | src/managers/atlas-search-manager.ts:191-221 | the writes done are exactly those before the failing driver call: none when `find` fails, the first k - 1 writes of the plan when call k fails, the whole plan when nothing fails |
| `Managers.DocumentErrorTextNamesDocument` | src/managers/atlas-search-manager.ts:154-158 | two error texts for one collection are equal exactly when they name the same document |
| `Managers.IndexErrorMessage` | src/managers/atlas-search-manager.ts:219 | the error is the document error text with `data.index` in both places, so it names the document exactly when `indexedDocumentId` equals `index` |
| `Managers.Upsert` | src/managers/atlas-search-manager.ts:190-222 | the status is OK exactly when no driver call of the plan throws, and the index error otherwise (the catch at lines 214-221); the collection holds exactly the writes done before the failing call; a failing `find` changes nothing; on OK the whole plan has been applied; other collections never change |
| `Managers.PlanPrefix` | src/managers/atlas-search-manager.ts:200-209 | after the first k writes of the loop, the first match holds the merged document and matches 2 to k are gone |
| `Managers.UpsertLeavesOneRecord` | src/managers/atlas-search-manager.ts:192-212 | after the upsert exactly one record has the key (the inserted one, or the first match merged with the document), records without the key are untouched, and `_id`s stay unique |
| `Managers.UpsertDedupes` | src/managers/atlas-search-manager.ts:190-212 | a successful upsert reports OK and leaves one record with the key, holding every field of the document; other records and other collections are unchanged |
| `Managers.UpsertKeepsOthers` | src/managers/atlas-search-manager.ts:190-221 | whichever driver call fails, records without the key and other collections are untouched, and `_id`s stay unique |
| `Managers.UpsertTwice` | src/managers/atlas-search-manager.ts:190-212 | upserting the same document a second time changes nothing |
| `Managers.AtlasSearchManager.IndexSingleDocument` | src/managers/atlas-search-manager.ts:190-222 | the method leaves the collections and returns the status that the upsert specification gives for the same first failing call; the error names `data.index` twice, as the source does |
| `Managers.AtlasSearchManager.WriteSingle` | src/managers/atlas-search-manager.ts:194-199 | with at most one match, a single insert or update, unless that call fails |
| `Managers.AtlasSearchManager.PerformNext` | src/managers/atlas-search-manager.ts:201-207 | one pass of the loop over several matches does exactly the next write of the plan |
| `Managers.AtlasSearchManager.UpdateFirstDeleteRest` | src/managers/atlas-search-manager.ts:200-209 | the loop over several matches does the plan's writes up to the first failing call, and reports whether all succeeded |
| `Managers.RunBatch` | src/managers/atlas-search-manager.ts:168-181 | one status per item |
| `Managers.BatchItemStatus` | src/managers/atlas-search-manager.ts:168-181 | one document's failure does not stop the batch: whatever the other items' faults, an item without a fault is indexed, an item whose `find` fails gets its own index error, and every item is indexed or gets its own error |
| `Managers.TallyOf` | src/managers/atlas-search-manager.ts:173-187 | `documentCount` is the number of items, and so is `successCount` plus the number of errors, and every error is the error of some failed item |
| `Managers.TallyCounts` | src/managers/atlas-search-manager.ts:173-187 | the tally is the number of statuses, the number of indexed statuses as `successCount`, and the errors of exactly the failed statuses, in the order of their documents |
| `Managers.BatchWithoutFaults` | src/managers/atlas-search-manager.ts:164-188 | when no driver call fails, every item counts as a success and there are no errors |
| `Managers.UpsertKeepsAllIdsUnique` | src/managers/atlas-search-manager.ts:190-222 | one upsert keeps `_id`s unique in every collection, whatever fails |
| `Managers.BatchKeepsIdsUnique` | src/managers/atlas-search-manager.ts:164-188 | a batch keeps `_id`s unique in every collection |
| `Managers.AtlasSearchManager.IndexDocuments` | src/managers/atlas-search-manager.ts:164-188 | the loop upserts the items in order through the memoised handle, and its tally is the tally of the batch's statuses |
| `Managers.AtlasSearchManager.BulkIndex` | src/managers/atlas-search-manager.ts:34-68 | absent or empty input changes nothing; otherwise the prepared items are indexed as one batch |
| `Managers.DeleteStatus` | src/managers/atlas-search-manager.ts:140-162 | `OK` exactly when `deleteMany` succeeded or `ignoreNotFound` is set; otherwise `BAD`, with an error naming the id and the collection |
| `Managers.AtlasSearchManager.DeleteDocument` | src/managers/atlas-search-manager.ts:140-162 | the status is `DeleteStatus`, and only a successful `deleteMany` changes the collection |
| `Managers.AtlasSearchManager.DeleteIndexedDocument` | src/managers/atlas-search-manager.ts:132-138 | deletes by key through the memoised handle and returns the delete status |
| `Managers.PerformRequest` | src/managers/atlas-search-manager.ts:224-262 | data exactly for a response; 400 with the body's `detail` or the bad-request message; 500 and 404 become code 400 with their messages; anything else becomes code 500 with the communication message |
| `Managers.FindIndexId` | src/managers/atlas-search-manager.ts:105-129 | none exactly when no listed index has the name; otherwise the `indexID` of the first index that has it |
| `Managers.FindIndexByIndexName` | src/managers/atlas-search-manager.ts:99-130 | a failed listing request fails with its mapped error; otherwise the first matching index's id, or none |
| `Managers.DeleteIndex` | src/managers/atlas-search-manager.ts:70-80 | no id (or an empty id) means no delete request; otherwise the delete request's outcome |
| `Managers.AtlasSearchManager.Connect` | src/managers/atlas-search-manager.ts:26-32 | connects only when no handle is stored, and always returns the stored handle |

## Left out

- Logging (`console.log`, `console.info`, `console.error`) and the `verbose` branches that only log. `verbose` matters only for the envelope field.
- URL building and the JSON body of admin API requests. `createIndex` (src/managers/atlas-search-manager.ts:83-97) only builds these and calls `performRequest`, which is modelled, so `createIndex` itself is not modelled.
- `MongoClient.connect`, the driver and the HTTP client are foreign I/O. They are parameters: the `connected` handle, the `aggregate` function, `Fault` values and `HttpOutcome` values.
- Concurrent first calls to `connect`. The model is single-threaded.
- The hooks `buildSearchOptions` and `formatDocuments` belong to subclasses. Their results are inputs: a `ClauseSet` and a function on documents.
- Errors thrown by `connect` or `buildSearchPipeline` in `run` happen before its try block. The model covers only the try block.
- JavaScript puts integer-like keys of an object first. The sort model keeps insertion order for every key.
- `Query.MinimumShouldMatch`: a should-clause counts as a text clause when its `text` key is set. An object whose `text` key holds a falsy value is not modelled.
- `Query.DocsBranchIsPage`: stated only for a non-negative page number and a positive page size, because MongoDB rejects a negative `$skip` and a zero `$limit`.
- The ObjectId a real insert creates is modelled by `FreshId`, a number larger than every `_id` in the collection.
- A document's own `_id` field is treated as an ordinary field. In MongoDB, `insertOne(data.document)` (src/managers/atlas-search-manager.ts:195) uses a document's own `_id` and throws when it clashes; the model always assigns `FreshId` and reports the upsert as indexed. A `$set` that names `_id` (lines 198 and 203) throws in MongoDB; the model merges it like any field. The driver also writes the new `_id` into the caller's `document` object; the model does not change the caller's documents.
- `deleteMany` is modelled as all or nothing. A driver failure partway through a delete is not modelled.
- A driver call that throws after its write took effect is not modelled. A failing call changes nothing.
- A failing `MongoClient.connect` (src/managers/atlas-search-manager.ts:28) is not modelled in the manager's methods: `connect` always yields a handle. The error that `indexDocuments` (through `this.connect()` at line 165) and so `bulkIndex` (lines 62-66), or `deleteIndexedDocument` (line 133), would propagate is therefore lost. Driver failures after the connection are caught per document and are modelled.
- `Managers.AtlasSearchManager.BulkIndex` returns the tally, which the source only logs.
- `Managers.AtlasSearchManager.BulkIndex`: the source writes the two fields into the caller's own `document` objects. The model builds new documents, so the aliasing with the caller is not modelled.
- The `i-prepared-document-to-index` and `i-paginated-input` interfaces are not part of this model. Their shapes are taken from how the code uses them.
- `src/managers/atlas-search-manager.ts:215-219`: the index error message names `data.index` twice and never names the document id. The model keeps that text as written.

## Findings

| source | as written | input that shows it | evidently intended | confidence | as-written member | corrected member |
|---|---|---|---|---|---|---|
| src/query/base-query.ts:88-92 | `formatResults` throws a plain object `{code, error}`, and the catch of `run` builds its message from `err.toLocaleString()`, which is `[object Object]` for such an object | an aggregation that returns two result records gives `Mongodb Query Error: [object Object]` | the message carries the cause: `Mongodb Query Error: Unexpected Atlas Search return format` | not executed | `Query.ShapeErrorMessageLost` | `Query.ShapeErrorMessageKept` |
