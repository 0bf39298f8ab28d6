# CampusSetu retrieval and ingestion core, in Dafny

CampusSetu is a document assistant for a college. PDF documents are cut into text chunks
and embedded by an external service. The chunks are stored in a PostgreSQL `documents`
table together with their vectors and a `branch`/`year` tag. A question is embedded, the
most similar stored chunks that match the caller's branch and year are retrieved, and
an external generator answers from them. This project models that core and proves
properties of it:

- `db.dfy`, module `Db`: the `documents` table is a class `DocumentStore` whose `rows`
  field `insert` appends to. `fetch_similar_documents` has three parts:
  - its SQL builder, a method over a token model of the statement;
  - its filter;
  - its ranking and truncation, stated by the function `Search`.

  Each database call's failure is an input (`DbFault`).
- `ingestion.dfy`, module `Ingestion`:
  - `get_embeddings` is a loop over windows of 100, specified by `EmbedAll`.
  - The zip-insert loop, specified by `ZipInsert`, is shared by `add_document_to_db` and
    `upload_document`.
  - `add_document_to_db` is specified by `Ingested`.
- `query.dfy`, module `Query`: `answer_query` as a function.
- `dates.dfy`, module `Dates`: the nested `process_date` of the upload handler, with
  `datetime.strptime(s, "%Y-%m-%d")` modelled by its accepted grammar and the calendar.
- `api.dfy`, module `Api`: the decision logic of `upload_document`, `query_documents`,
  `search_similar_documents`, and the statement builder of `list_documents`.
- Helpers:
  - `sql.dfy` (module `Sql`): statements as token sequences, placeholders, and the
    meaning of the WHERE conditions;
  - `ranking.dfy` (module `Ranking`): a stable descending sort and top-k;
  - `text.dfy` (module `Text`): whitespace, ASCII lower-casing and the `.pdf` suffix test;
  - `wrappers.dfy` (module `Wrappers`): `Option`.

The embedding service, the PDF chunker and the answer generator are function-valued
parameters:

- `EmbedService`: one reply per request.
- `ChunkSource`: `process_pdf`.
- `Responder`: `get_gemini_response`.

The engine's similarity `1 - (embedding <=> query)` is an abstract integer-valued
`Score` of a stored vector and the query vector. A handler's outcome is either a
response body or an `HTTPException` (`Http.HttpError(status, detail)`). A detail built
as `f"...: {str(e)}"` from an unknown exception is `Wrapped(prefix)`.

Two behaviours of the code that a reader might not expect, which the model keeps:

- `fetch_similar_documents` and `insert` do not turn every database error into `[]` or a
  silent no-op. When the connection itself fails, the `finally` clause calls
  `cursor.close()` on an unbound name, so an error escapes (`ConnectFault`). Errors after
  the cursor exists are swallowed (`ExecuteFault`).
- A negative `top_k` reaches the engine as `LIMIT -n`, which the engine rejects. The
  error is caught, so the result is `[]`.

## Model

| member | source | states |
|---|---|---|
| Db.DocumentStore.Insert | db.py:47-77 | with no fault, exactly one row is appended, holding the given content, embedding, doc_name, branch, year and dates and an id no earlier row has; earlier rows are unchanged; an execute/commit failure is swallowed and adds nothing; a connection failure adds nothing and raises |
| Db.InsertWithDefaults | db.py:51-54 | an `insert` without the optional arguments stores branch "all", year "all" and NULL validity dates |
| Db.DocumentStore.FetchSimilar | db.py:79-155 | the outcome of the builder, the statement and the row-to-dict mapping on the current table equals `Search` of the table's rows |
| Db.BuildSearchQuery | db.py:93-117 | the appends build exactly `SearchQueryText`; conditions are one `(x = %s OR x = 'all')` per active filter, branch first; params are the vector, the bound filter values, then top_k; `len(params)` is active filters + 2 and equals the number of `%s` in the text; there is a WHERE exactly when there are conditions |
| Db.SearchQueryTextSpec | db.py:93-116 | the search statement holds one placeholder for the vector, one per active filter and one for the LIMIT, and a WHERE exactly when some filter is active |
| Db.SearchClausesMeaning | db.py:103-113 | a row satisfies the built WHERE clause iff, per dimension, the filter is None/""/"all", or the row's tag equals it, or the row's tag is "all" |
| Db.MatchingCount | db.py:112-113 | the WHERE clause keeps every copy of each satisfying row and no other row |
| Db.MatchingAll | db.py:112-113 | a WHERE clause every stored row satisfies keeps the whole table, in order |
| Db.MatchingNone | db.py:112-113 | a WHERE clause no stored row satisfies keeps nothing |
| Db.SearchSpec | db.py:93-148 | a successful search returns min(top_k, candidates) rows, each a stored candidate, sorted by similarity descending, any omitted candidate scoring no higher than every returned row, each dict carrying its row's columns and score |
| Db.SelectedAreCandidates | db.py:103-117 | every returned row is a stored row that passes the filter |
| Db.OmittedScoreNoHigher | db.py:116-117 | a candidate left out of the result scores no higher than any row in it |
| Db.SearchBounds | db.py:116-117 | a search returns at most top_k rows (none for a negative top_k) and no more than the table holds |
| Db.SearchSameClauses | db.py:103-117 | the search depends on branch and year only through the conditions they produce |
| Db.SearchWithoutVector | db.py:88-90 | a None query vector gives `[]` whatever the database would do |
| Db.SearchErrors | db.py:119-155 | an execute/fetch failure gives `[]`; a connection failure raises; a negative top_k gives `[]` |
| Sql.JoinAndPlaceholders | db.py:112-113 | `" AND ".join(conditions)` holds one placeholder per condition and no WHERE and no integer text |
| Sql.WherePlaceholders | db.py:112-113 | appending the WHERE clause adds exactly one placeholder per condition |
| Sql.ClausePlaceholders | db.py:104-108 | each condition's text holds exactly one placeholder |
| Ranking.SortDescSpec | db.py:116 | `ORDER BY similarity DESC` yields a permutation of the candidates in descending score |
| Ranking.TopKSpec | db.py:116-117 | `LIMIT k` after the sort: min(k, n) elements, a sub-multiset of the input, sorted, and no omitted element outscores a kept one |
| Ingestion.GetEmbeddings | ingestion.py:15-36 | the loop over offsets 0, 100, ... returns `EmbedAll`: None if any window's request fails, else the concatenation of the replies in order |
| Ingestion.BatchesPartition | ingestion.py:24-25 | the windows number ceil(n/100), each holds 1 to 100 chunks, and their concatenation is the input |
| Ingestion.ConcatBatchesPrefix | ingestion.py:24-25 | the first k windows concatenate to the first min(100k, n) chunks |
| Ingestion.EmptyInputNoRequest | ingestion.py:21-32 | empty input makes no request and returns `[]` |
| Ingestion.AnyFailureDiscardsAll | ingestion.py:34-36 | any failing window makes the whole result None, discarding the other replies |
| Ingestion.EmbedAllLength | ingestion.py:30-32 | if every window gets one vector per text, the result has one vector per chunk |
| Ingestion.BatchingPreservesOrder | ingestion.py:24-32 | for a service that embeds each text independently, the batched result equals embedding the chunks one by one, in order |
| Ingestion.InsertPairs | ingestion.py:84-93 | the zip-insert loop grows the table by exactly the rows `ZipInsert` gives and reports whether an error escaped |
| Ingestion.ZipInsertAllPairs | ingestion.py:84-93 | without database errors, there is one row per zipped pair, min(len(chunks), len(embeddings)) rows in order, all with identical metadata |
| Ingestion.ZipInsertSameMeta | ingestion.py:84-93 | whatever fails, every inserted row carries the same metadata and there are at most as many rows as pairs |
| Ingestion.ZipInsertRaisedStays | ingestion.py:84-93 | once an error escapes an `insert` (a connection failure, through the unbound cursor in `insert`'s `finally`), the zip-insert loop stops: no later pair is inserted; the loop of `upload_document` (api.py, lines 152-163) is the same `ZipInsert` |
| Ingestion.AddDocumentToDb | ingestion.py:60-97 | the table grows by exactly `Ingested(...)` and the call never raises |
| Ingestion.IngestedNothingOnEarlyExit | ingestion.py:73-81 | falsy chunks or falsy embeddings insert nothing |
| Ingestion.IngestedOnePerPair | ingestion.py:84-93 | with chunks, embeddings and no database error, one row per zipped pair, in order, with the caller's metadata |
| Ingestion.IngestedSameMeta | ingestion.py:84-93 | every added row carries the caller's metadata, and there are at most as many rows as chunks |
| Query.AnswerQuery | main.py:13-37 | the answer is "Error processing your query.", the no-context sentinel, or the responder's output for the query and a context of 1 to 7 items |
| Query.AnswerQueryCases | main.py:17-37 | an embedding that is None or empty gives "Error processing your query."; otherwise the search uses top_k 7 and the caller's filters; an escaping search error gives the error string, an empty result gives the sentinel, anything else gives the responder's output unchanged |
| Query.EmptySearchSkipsResponder | main.py:24-25 | an empty search result gives exactly "No relevant context found in the database." for every responder |
| Query.NoContextExactlyWhenEmpty | main.py:22-25 | for a responder that never produces the sentinel, the sentinel is returned iff the embedding succeeded and the search returned `[]` |
| Query.ContextProjects | main.py:28 | the responder's context is the (content, doc_name) projection of the results, same length and order |
| Query.AtMostSevenInContext | main.py:22 | the responder is given at most 7 results |
| Query.DefaultFiltersAdmitAll | main.py:13 | the default filters "all"/"all" restrict nothing |
| Query.FilterExamples | db.py:103-113 | a CSE row is excluded by an ECE filter and admitted by "all"; a row tagged branch "all" passes any branch filter; a row tagged "all"/"all" passes every branch and year filter |
| Query.IngestThenSearch | ingestion.py:84-93 | ingesting three CSE/2025 chunks with no faults adds three rows; a CSE search finds all three, an ECE search none |
| Dates.ProcessDate | api.py:136-146 | returns the input unchanged exactly when it parses as `%Y-%m-%d` with a real calendar date, None otherwise, never raising |
| Dates.ParsesAsDateCorrect | api.py:143 | the executable parse check agrees with the strptime grammar and calendar (year 1-9999, months 1-12, days within the month, leap years) |
| Dates.ProcessDateNoDateValues | api.py:137-138 | None, "", whitespace, and "null", "None", "STRING" in any case give None |
| Dates.ProcessDateRejects | api.py:140-146 | "2025-13-40", "2025-02-29", "0000-01-01" and a trailing space give None |
| Dates.ProcessDateKeepsIsoDate | api.py:143-144 | "2025-09-01" is kept |
| Dates.ProcessDateKeepsLeapDay | api.py:143-144 | "2024-02-29" is kept |
| Dates.ProcessDateKeepsShortFields | api.py:143-144 | "2025-9-1" is kept, since `%m` and `%d` accept one digit |
| Text.EndsWithPdfExamples | api.py:114 | the suffix test is case-insensitive and needs the whole ".pdf" |
| Api.UploadDocument | api.py:100-181 | the handler's response and its effect on the table are those of `Upload` |
| Api.UploadRejectsNonPdf | api.py:114-115 | a non-.pdf filename gives 400 "Only PDF files are supported" before anything else, inserting nothing |
| Api.UploadEarlyExits | api.py:126-133 | falsy chunks give 400 whatever the embedding would do; then falsy embeddings give 500; neither inserts |
| Api.UploadOkExactly | api.py:112-181 | the response is 200 iff suffix, save, chunks and embeddings all succeed and no `insert` lets an error out |
| Api.UploadRowsMeta | api.py:148-162 | every added row carries the form's doc_name, branch and year, and validity dates that are either NULL or the form's text where it is a real date |
| Api.UploadDefaultsMeta | api.py:104-107 | a form without the optional fields stores "all", "all", NULL, NULL |
| Api.UploadReportsAllChunks | api.py:153-176 | a 200 reports chunks_processed = len(chunks) and doc_id "generated", never fewer than the rows added, and more when the service returned fewer vectors than chunks |
| Api.UploadAddsEveryPair | api.py:153-165 | without database errors the upload is 200 and adds one row per zipped pair, in order |
| Api.OrAll | api.py:215-216 | `v or "all"` is "all" exactly for None, "" and "all", and v otherwise |
| Api.TopKOr5 | api.py:206 | `top_k or 5` is 5 exactly for None, 0 and 5, and top_k otherwise |
| Api.OrAllSameFilter | api.py:207-208 | defaulting a filter to "all" keeps it active exactly when it was, and for any branch and year filters the defaulted pair builds the same search clauses as the original pair |
| Api.AnswerAllSameAsNull | main.py:13-22 | `answer_query` with "all"/"all" answers as with None/None |
| Api.DefaultsSameAsNull | api.py:32-36 | a request without optional fields answers, on both query endpoints, exactly as one with null fields |
| Api.QueryDocuments | api.py:183-224 | 400 exactly for a blank query; 404 exactly when a non-blank query gets an empty answer; otherwise only a 500 from the count search; a 200 carries the non-empty answer of `answer_query` for the request's own filters, the query, and the filters after `or "all"` |
| Api.QueryRejectsBlank | api.py:189-190 | an empty or whitespace-only query gives 400 "Query cannot be empty" |
| Api.QueryEchoes | api.py:212-218 | a 200 carries `answer_query`'s non-empty answer for the request's own filters, the query, and the filters after `or "all"` |
| Api.EmptySearchAnswersOk | api.py:193-196 | for a responder that never answers "", the 404 is unreachable: the no-context sentinel is returned with 200, and the only error left is a 500 from the count search |
| Api.ContextUsedBound | api.py:198-210 | context_used is 0 when the service gives no usable first vector, and otherwise exactly the length of the (successful) second search with `top_k or 5` and the `or "all"` filters; so it is at most that many and at most the table size, and at most 5 for a request without top_k, though the answer used up to 7 |
| Api.SearchSimilarDocuments | api.py:226-277 | every error is a 500 with the "Error searching documents: " prefix, a blank query included; total_found is the list length; an unsuccessful embedding gives an empty list; a successful one needs a non-empty first vector |
| Api.BlankQueryStatuses | api.py:232-233 | a blank query is 400 on `/query/` but 500 on `/search-similar/`, whose `except Exception` catches its own HTTPException |
| Api.SearchSimilarEmbeddingFailure | api.py:239-244 | a failed embedding, an empty list of vectors, or an empty first vector gives an empty list with query_embedding_success false |
| Api.SearchSimilarTotal | api.py:270-274 | total_found equals the number of documents, and a non-empty list implies a successful embedding |
| Api.SearchSimilarLists | api.py:246-274 | with a vector and no NULL tags, the response lists the search's min(top_k or 5, candidates) rows, each a stored candidate, with its columns, in descending similarity |
| Api.ToSimilarOfRows | api.py:257-268 | each `SimilarDocument` carries the columns and score of its row |
| Api.ListQueryTextSpec | api.py:356-374 | the listing statement holds one placeholder per active filter, a WHERE iff some filter is active, and an integer in its text iff the limit is non-zero, which it then ends with |
| Api.BuildListQuery | api.py:356-374 | the builder produces that statement, one `x = %s` condition and one parameter per truthy non-"all" filter, branch first, with `len(params)` equal to the placeholders |
| Api.ListFilterExact | api.py:359-365 | a row is listed iff its tags equal each active filter exactly |
| Api.ListAndSearchDisagreeOnAll | api.py:359-365 | a row tagged "all" is found by a CSE search but not listed under CSE: there is no stored-side wildcard |

## Left out

- PDF loading and splitting (`PyPDFLoader`, `RecursiveCharacterTextSplitter`, ingestion.py:38-58) are library internals. `process_pdf` is the abstract `ChunkSource`, and any exception inside it is folded into its None result.
- The Gemini embedding and generation calls are foreign services. They are the function parameters `EmbedService` and `Responder`. agent.py is not part of this model beyond its role as the responder.
  - The responder returning None text is not modelled: it returns a string.
  - The service is a function, so repeated calls with the same texts give the same reply. `query_documents` calls `get_embeddings([query])` three times, and the model cannot express those replies differing.
- pgvector cosine distance and float similarity: an abstract integer score per (stored vector, query vector).
- `ORDER BY similarity DESC` promises no order among rows of equal score (db.py:116). The model fixes one: a stable sort, so ties keep table order.
  - These members state the result under that fixed order: `Db.Search`, `Db.SearchEntries`, `Db.DocumentStore.FetchSimilar` (`outcome == Search(...)`), the first clause of `Db.SearchSpec`, `Api.SearchSimilarLists` (the response equals the listing of `SearchEntries`), and `Query.AnswerQueryCases` (the responder's argument).
  - These members hold for every order of ties: `Db.SelectedAreCandidates`, `Db.OmittedScoreNoHigher`, `Db.SearchBounds`, `Ranking.TopKSpec`, and the length, candidate, sortedness and omitted-score clauses of `Db.SearchSpec`.
- Connection and environment setup, the health endpoints, the statistics endpoint, CORS, the uvicorn start, printing, timestamps from `datetime.now()`, and the `documents` directory and file copy. Saving the upload is reduced to one success flag.
- Concurrency: the handlers are `async` but do nothing concurrently. Concurrent requests against the table are not modelled.
- app.py, the Streamlit front end. Its `get_answer` calls `answer_query` without the branch and year filters (app.py:313).
- `uuid.uuid4()` is a counter `nextId`. Only its freshness is used.
- Db.DocumentStore.Insert: the escaping error on a connection failure is an outcome value, not an exception. The connections that the code never closes are not modelled.
- Db.Search: SQL NULL tags never equal a filter value, which matches the engine. A NULL query vector column, and the engine's handling of a vector of the wrong dimension, are not modelled.
- Dates.ProcessDate: `\d` in Python's strptime regex also matches non-ASCII decimal digits. The model accepts ASCII digits only.
- Api.SearchSimilarDocuments: of pydantic's response validation, only the NULL branch/year case is modelled, as a 500. The database's column types for the validity dates are not part of this model.
- Api.BuildListQuery: the GROUP BY aggregation, `ORDER BY doc_name`, the row-to-dict mapping and the `filters_applied` echo of `list_documents` are engine semantics or plumbing. Only the statement and its parameters are modelled, not the rows returned. A negative limit is written into the text as is, and the engine would reject it.
- Api.QueryDocuments: the timestamp field of the response is left out.
