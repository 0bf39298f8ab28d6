/**
 * The decision logic of the HTTP handlers (api.py): `upload_document`, `query_documents`,
 * `search_similar_documents` and the statement builder of `list_documents`. Each handler's
 * outcome is either a response body or an `HTTPException` with a status code and a detail.
 * Saving the uploaded file, the services and each database call's failure are inputs.
 */
module Api {
  import opened Wrappers
  import opened Text
  import opened Sql
  import opened Db
  import opened Ingestion
  import opened Query
  import opened Dates
  import Ranking

  /**
   * The detail of an `HTTPException`: a fixed text, or a fixed prefix followed by the text
   * of an exception the handler caught (`f"...: {str(e)}"`), which the model does not know.
   */
  datatype Detail = Fixed(text: string) | Wrapped(prefix: string)

  /** What a handler answers: a response model, or an `HTTPException`. */
  datatype Http<T> = Ok(body: T) | HttpError(status: int, detail: Detail)

  const OnlyPdfMessage := "Only PDF files are supported"
  const BadPdfMessage := "Failed to process PDF. Please check the file."
  const NoEmbeddingsMessage := "Failed to generate embeddings"
  const UploadErrorPrefix := "Error processing document: "
  const UploadSuccessMessage := "Document uploaded and processed successfully"
  const GeneratedId := "generated"
  const EmptyQueryMessage := "Query cannot be empty"
  const NoAnswerMessage := "No relevant context found in the database"
  const QueryErrorPrefix := "Error processing query: "
  const SearchErrorPrefix := "Error searching documents: "

  // ---------------------------------------------------------------- upload_document

  /** The form fields of `/upload-document/`. */
  datatype UploadForm = UploadForm(filename: string, docName: string, branch: string, year: string,
                                   validFrom: Option<string>, validTo: Option<string>)

  /** A form that leaves the optional fields out: "all", "all" and two empty dates. */
  function DefaultUploadForm(filename: string, docName: string): UploadForm {
    UploadForm(filename, docName, "all", "all", Some(""), Some(""))
  }

  /** `DocumentUploadResponse`. */
  datatype UploadBody = UploadBody(message: string, docName: string, chunksProcessed: nat,
                                   branch: string, year: string, docId: string)

  /**
   * What the handler depends on besides the form: whether saving the upload under
   * `documents/` succeeds, the chunker, the embedding service, and the database failure
   * of each `insert` call.
   */
  datatype UploadEnv = UploadEnv(saved: bool, processPdf: ChunkSource, embed: EmbedService, fault: nat -> DbFault)

  /** The response, and the rows committed to the table on the way to it. */
  datatype UploadResult = UploadResult(response: Http<UploadBody>, added: seq<Entry>)

  /** The metadata every row of an upload carries: the form's tags and its dates after `process_date`. */
  function UploadMeta(form: UploadForm): Meta {
    Meta(form.docName, Some(form.branch), Some(form.year), ProcessDate(form.validFrom), ProcessDate(form.validTo))
  }

  /**
   * `upload_document`. The suffix check comes first, then saving the file (an error there is
   * wrapped into a 500), then the chunk check (400), then the embedding check (500), then the
   * zip-insert loop; an error escaping an `insert` becomes a 500 after the rows before it were
   * committed. The reported count is the number of chunks, and the id is always "generated".
   */
  function Upload(form: UploadForm, env: UploadEnv): UploadResult {
    if !EndsWithPdf(form.filename) then UploadResult(HttpError(400, Fixed(OnlyPdfMessage)), [])
    else if !env.saved then UploadResult(HttpError(500, Wrapped(UploadErrorPrefix)), [])
    else match env.processPdf(form.filename)
      case None => UploadResult(HttpError(400, Fixed(BadPdfMessage)), [])
      case Some(chunks) =>
        if chunks == [] then UploadResult(HttpError(400, Fixed(BadPdfMessage)), [])
        else match EmbedAll(env.embed, chunks)
          case None => UploadResult(HttpError(500, Fixed(NoEmbeddingsMessage)), [])
          case Some(es) =>
            if es == [] then UploadResult(HttpError(500, Fixed(NoEmbeddingsMessage)), [])
            else
              var z := ZipInsert(chunks, es, UploadMeta(form), env.fault, Pairs(chunks, es));
              if z.raised then UploadResult(HttpError(500, Wrapped(UploadErrorPrefix)), z.entries)
              else UploadResult(Ok(UploadBody(UploadSuccessMessage, form.docName, |chunks|, form.branch,
                                              form.year, GeneratedId)), z.entries)
  }

  /** An upload that leaves the optional fields out stores the same metadata as `insert`'s defaults. */
  lemma UploadDefaultsMeta(filename: string, docName: string)
    ensures UploadMeta(DefaultUploadForm(filename, docName)) == Meta(docName, Some("all"), Some("all"), None, None)
  {
    assert IsNoDateWord("");
  }

  /** The handler itself, against the table: its response and its effect are those of `Upload`. */
  method UploadDocument(store: DocumentStore, form: UploadForm, env: UploadEnv) returns (response: Http<UploadBody>)
    requires store.Valid()
    modifies store
    ensures store.Valid()
    ensures response == Upload(form, env).response
    ensures store.Entries() == old(store.Entries()) + Upload(form, env).added
  {
    if !EndsWithPdf(form.filename) {
      return HttpError(400, Fixed(OnlyPdfMessage));
    }
    if !env.saved {
      return HttpError(500, Wrapped(UploadErrorPrefix));
    }
    var chunks := env.processPdf(form.filename);
    if chunks.None? || chunks.value == [] {
      return HttpError(400, Fixed(BadPdfMessage));
    }
    var embeddings := GetEmbeddings(env.embed, chunks.value);
    if embeddings.None? || embeddings.value == [] {
      return HttpError(500, Fixed(NoEmbeddingsMessage));
    }
    var meta := UploadMeta(form);
    var raised := InsertPairs(store, chunks.value, embeddings.value, meta, env.fault);
    if raised {
      return HttpError(500, Wrapped(UploadErrorPrefix));
    }
    // `doc_id` is set to "generated" by the first pass of the loop and defaults to it otherwise.
    response := Ok(UploadBody(UploadSuccessMessage, form.docName, |chunks.value|, form.branch, form.year, GeneratedId));
  }

  /** A file whose name does not end in ".pdf", in any case, is refused with 400 before anything else happens. */
  lemma UploadRejectsNonPdf(form: UploadForm, env: UploadEnv)
    requires !EndsWithPdf(form.filename)
    ensures Upload(form, env) == UploadResult(HttpError(400, Fixed(OnlyPdfMessage)), [])
  {
  }

  /**
   * The early exits, in order: missing chunks give 400 whatever the embedding service would
   * do, and missing embeddings give 500; neither inserts a row.
   */
  lemma UploadEarlyExits(form: UploadForm, env: UploadEnv)
    requires EndsWithPdf(form.filename) && env.saved
    ensures var chunks := env.processPdf(form.filename);
      (chunks.None? || chunks.value == []) ==> Upload(form, env) == UploadResult(HttpError(400, Fixed(BadPdfMessage)), [])
    ensures var chunks := env.processPdf(form.filename);
      (chunks.Some? && chunks.value != [] && EmbedAll(env.embed, chunks.value) in {None, Some([])})
      ==> Upload(form, env) == UploadResult(HttpError(500, Fixed(NoEmbeddingsMessage)), [])
  {
  }

  /** The handler answers 200 exactly when every check passes and no `insert` lets an error out. */
  lemma UploadOkExactly(form: UploadForm, env: UploadEnv)
    ensures Upload(form, env).response.Ok? <==>
      && EndsWithPdf(form.filename) && env.saved
      && env.processPdf(form.filename).Some? && env.processPdf(form.filename).value != []
      && EmbedAll(env.embed, env.processPdf(form.filename).value).Some?
      && EmbedAll(env.embed, env.processPdf(form.filename).value).value != []
      && !ZipInsert(env.processPdf(form.filename).value, EmbedAll(env.embed, env.processPdf(form.filename).value).value,
                    UploadMeta(form), env.fault,
                    Pairs(env.processPdf(form.filename).value, EmbedAll(env.embed, env.processPdf(form.filename).value).value)).raised
  {
  }

  /**
   * Every row an upload adds, whatever its outcome, carries the form's doc_name, branch and
   * year, and validity dates that are either NULL or the form's text where it is a real
   * `%Y-%m-%d` date.
   */
  lemma UploadRowsMeta(form: UploadForm, env: UploadEnv)
    ensures forall e :: e in Upload(form, env).added ==>
      && e.meta.docName == form.docName && e.meta.branch == Some(form.branch) && e.meta.year == Some(form.year)
      && (e.meta.validFrom.Some? ==> e.meta.validFrom == form.validFrom && StrptimeAccepts(form.validFrom.value))
      && (e.meta.validTo.Some? ==> e.meta.validTo == form.validTo && StrptimeAccepts(form.validTo.value))
  {
    var chunks := env.processPdf(form.filename);
    if EndsWithPdf(form.filename) && env.saved && chunks.Some? && chunks.value != [] {
      var es := EmbedAll(env.embed, chunks.value);
      if es.Some? && es.value != [] {
        ZipInsertSameMeta(chunks.value, es.value, UploadMeta(form), env.fault, Pairs(chunks.value, es.value));
      }
    }
  }

  /**
   * A successful upload reports all its chunks as processed and the id "generated", though
   * `zip` inserts at most one row per embedding: the count never falls short of the rows
   * added, and exceeds it when the service returned fewer vectors than chunks.
   */
  lemma UploadReportsAllChunks(form: UploadForm, env: UploadEnv)
    requires Upload(form, env).response.Ok?
    ensures var chunks := env.processPdf(form.filename).value;
      var body := Upload(form, env).response.body;
      && body.chunksProcessed == |chunks| && body.docId == GeneratedId
      && body.message == UploadSuccessMessage && body.docName == form.docName
      && body.branch == form.branch && body.year == form.year
      && |Upload(form, env).added| <= body.chunksProcessed
      && (|EmbedAll(env.embed, chunks).value| < |chunks| ==> |Upload(form, env).added| < body.chunksProcessed)
  {
    var chunks := env.processPdf(form.filename).value;
    var es := EmbedAll(env.embed, chunks).value;
    ZipInsertSameMeta(chunks, es, UploadMeta(form), env.fault, Pairs(chunks, es));
  }

  /** Without database errors, a successful upload adds one row per (chunk, embedding) pair, in order. */
  lemma UploadAddsEveryPair(form: UploadForm, env: UploadEnv)
    requires EndsWithPdf(form.filename) && env.saved
    requires env.processPdf(form.filename).Some? && env.processPdf(form.filename).value != []
    requires EmbedAll(env.embed, env.processPdf(form.filename).value).Some?
    requires EmbedAll(env.embed, env.processPdf(form.filename).value).value != []
    requires forall i :: 0 <= i < |env.processPdf(form.filename).value| ==> env.fault(i) == NoFault
    ensures var chunks := env.processPdf(form.filename).value;
      var es := EmbedAll(env.embed, chunks).value;
      && Upload(form, env).response.Ok?
      && Upload(form, env).added
         == seq(Pairs(chunks, es), i requires 0 <= i < Pairs(chunks, es) => Entry(chunks[i], es[i], UploadMeta(form)))
  {
    var chunks := env.processPdf(form.filename).value;
    var es := EmbedAll(env.embed, chunks).value;
    ZipInsertAllPairs(chunks, es, UploadMeta(form), env.fault, Pairs(chunks, es));
  }

  // ---------------------------------------------------------------- request model and defaulting

  /** `QueryRequest`, the body of `/query/` and `/search-similar/`. */
  datatype QueryRequest = QueryRequest(query: string, branch: Option<string>, year: Option<string>, topK: Option<int>)

  /** A request that gives only the query text: "all", "all" and 5. */
  function DefaultQueryRequest(query: string): QueryRequest {
    QueryRequest(query, Some("all"), Some("all"), Some(5))
  }

  /** `value or "all"`. */
  function OrAll(v: Option<string>): (r: string)
    ensures r == "all" <==> v in {None, Some(""), Some("all")}
    ensures v.Some? && v.value != "" ==> r == v.value
  {
    if v.None? || v.value == "" then "all" else v.value
  }

  /** `top_k or 5`. */
  function TopKOr5(k: Option<int>): (r: int)
    ensures r == 5 <==> k in {None, Some(0), Some(5)}
    ensures k.Some? && k.value != 0 ==> r == k.value
  {
    if k.None? || k.value == 0 then 5 else k.value
  }

  /** After `or "all"` defaulting a filter restricts the search exactly when it did before. */
  lemma OrAllSameFilter(b: Option<string>, y: Option<string>)
    ensures Active(Some(OrAll(b))) <==> Active(b)
    ensures SearchClauses(Some(OrAll(b)), Some(OrAll(y))) == SearchClauses(b, y)
  {
  }

  // ---------------------------------------------------------------- query_documents

  /** `QueryResponse`, without its timestamp. */
  datatype QueryBody = QueryBody(answer: string, query: string, branch: string, year: string, contextUsed: nat)

  /**
   * `query_documents`. A blank query is refused with 400; an empty answer from `answer_query`
   * with 404. The answer is then returned together with `context_used`, the length of a
   * second search with `top_k or 5` and the defaulted filters for the first vector the
   * service returns (0 when it returns none, or an empty one). That search's faults are
   * separate from the answer's; an error escaping it becomes a 500. `answer_query` itself
   * lets no error out.
   */
  function QueryDocuments(req: QueryRequest, entries: seq<Entry>, svc: Services,
                          answerFault: DbFault, countFault: DbFault): (r: Http<QueryBody>)
    ensures r == HttpError(400, Fixed(EmptyQueryMessage)) <==> IsBlank(req.query)
    ensures r == HttpError(404, Fixed(NoAnswerMessage)) <==>
      !IsBlank(req.query) && AnswerQuery(entries, svc, answerFault, req.query, req.branch, req.year) == ""
    ensures r.HttpError? ==>
      r in {HttpError(400, Fixed(EmptyQueryMessage)), HttpError(404, Fixed(NoAnswerMessage)),
            HttpError(500, Wrapped(QueryErrorPrefix))}
    ensures r.Ok? ==>
      && r.body.answer == AnswerQuery(entries, svc, answerFault, req.query, req.branch, req.year)
      && r.body.answer != "" && r.body.query == req.query
      && r.body.branch == OrAll(req.branch) && r.body.year == OrAll(req.year)
  {
    if IsBlank(req.query) then HttpError(400, Fixed(EmptyQueryMessage))
    else
      var answer := AnswerQuery(entries, svc, answerFault, req.query, req.branch, req.year);
      if answer == "" then HttpError(404, Fixed(NoAnswerMessage))
      else
        var body := QueryBody(answer, req.query, OrAll(req.branch), OrAll(req.year), 0);
        match EmbedAll(svc.embed, [req.query])
        case None => Ok(body)
        case Some(vs) =>
          if vs == [] || vs[0] == [] then Ok(body)
          else match Search(entries, Some(vs[0]), TopKOr5(req.topK), Some(OrAll(req.branch)),
                            Some(OrAll(req.year)), countFault, svc.score)
            case SearchRaised => HttpError(500, Wrapped(QueryErrorPrefix))
            case Returned(docs) => Ok(body.(contextUsed := |docs|))
  }

  /** A query that is empty or only whitespace is refused with 400 before any service is called. */
  lemma QueryRejectsBlank(req: QueryRequest, entries: seq<Entry>, svc: Services, answerFault: DbFault, countFault: DbFault)
    requires IsBlank(req.query)
    ensures QueryDocuments(req, entries, svc, answerFault, countFault) == HttpError(400, Fixed(EmptyQueryMessage))
  {
  }

  /**
   * A 200 carries the answer of `answer_query` for the request's own filters, echoes the
   * query, and echoes the filters after `or "all"`.
   */
  lemma QueryEchoes(req: QueryRequest, entries: seq<Entry>, svc: Services, answerFault: DbFault, countFault: DbFault)
    requires QueryDocuments(req, entries, svc, answerFault, countFault).Ok?
    ensures var body := QueryDocuments(req, entries, svc, answerFault, countFault).body;
      && body.answer == AnswerQuery(entries, svc, answerFault, req.query, req.branch, req.year)
      && body.answer != ""
      && body.query == req.query
      && body.branch == OrAll(req.branch) && body.year == OrAll(req.year)
      && (req.branch in {None, Some("")} ==> body.branch == "all")
      && (req.year in {None, Some("")} ==> body.year == "all")
  {
  }

  /**
   * The 404 "no context" response is never produced for an empty search: `answer_query`
   * answers an empty search with its non-empty sentinel, which is returned with status 200.
   * Only a responder that returns "" can lead to 404; the only other error left is the
   * count search letting a connection error out.
   */
  lemma EmptySearchAnswersOk(req: QueryRequest, entries: seq<Entry>, svc: Services, answerFault: DbFault, countFault: DbFault)
    requires !IsBlank(req.query)
    requires forall ctx :: svc.respond(ctx, req.query) != ""
    ensures QueryDocuments(req, entries, svc, answerFault, countFault).HttpError? ==>
      QueryDocuments(req, entries, svc, answerFault, countFault) == HttpError(500, Wrapped(QueryErrorPrefix))
    ensures AnswerQuery(entries, svc, answerFault, req.query, req.branch, req.year) == NoContextMessage
            && countFault != ConnectFault ==>
      && QueryDocuments(req, entries, svc, answerFault, countFault).Ok?
      && QueryDocuments(req, entries, svc, answerFault, countFault).body.answer == NoContextMessage
  {
    AnswerQueryCases(entries, svc, answerFault, req.query, req.branch, req.year);
  }

  /**
   * `context_used` is the length of the second search, which asks for `top_k or 5` rows with
   * the defaulted filters, not the 7 that `answer_query` gave the responder, and it is 0 when
   * the service returns no usable first vector: for a request without `top_k` it is at most 5.
   */
  lemma ContextUsedBound(req: QueryRequest, entries: seq<Entry>, svc: Services, answerFault: DbFault, countFault: DbFault)
    requires QueryDocuments(req, entries, svc, answerFault, countFault).Ok?
    ensures var vs := EmbedAll(svc.embed, [req.query]);
      (vs.None? || vs.value == [] || vs.value[0] == []) ==>
        QueryDocuments(req, entries, svc, answerFault, countFault).body.contextUsed == 0
    ensures var vs := EmbedAll(svc.embed, [req.query]);
      (vs.Some? && vs.value != [] && vs.value[0] != []) ==>
        var s := Search(entries, Some(vs.value[0]), TopKOr5(req.topK), Some(OrAll(req.branch)),
                        Some(OrAll(req.year)), countFault, svc.score);
        s.Returned? && QueryDocuments(req, entries, svc, answerFault, countFault).body.contextUsed == |s.docs|
    ensures var k := TopKOr5(req.topK);
      QueryDocuments(req, entries, svc, answerFault, countFault).body.contextUsed <= Ranking.Min(if k < 0 then 0 else k, |entries|)
    ensures req.topK in {None, Some(0)} ==> QueryDocuments(req, entries, svc, answerFault, countFault).body.contextUsed <= 5
  {
    var vs := EmbedAll(svc.embed, [req.query]);
    if vs.Some? && vs.value != [] && vs.value[0] != [] {
      SearchBounds(entries, Some(vs.value[0]), TopKOr5(req.topK), Some(OrAll(req.branch)), Some(OrAll(req.year)),
                   countFault, svc.score);
    }
  }

  /** "all" and a missing filter give `answer_query` the same search. */
  lemma AnswerAllSameAsNull(query: string, entries: seq<Entry>, svc: Services, fault: DbFault)
    ensures AnswerQuery(entries, svc, fault, query, Some("all"), Some("all")) == AnswerQuery(entries, svc, fault, query, None, None)
  {
    var vs := EmbedAll(svc.embed, [query]);
    if vs.Some? && vs.value != [] {
      SearchSameClauses(entries, Some(vs.value[0]), AnswerTopK, Some("all"), Some("all"), None, None, fault, svc.score);
    }
  }

  /**
   * Leaving the optional fields out is the same, for both query endpoints, as sending them as
   * null: "all" and a missing filter both leave their dimension unrestricted, and 5 is the
   * default of `top_k or 5`.
   */
  lemma DefaultsSameAsNull(query: string, entries: seq<Entry>, svc: Services, f1: DbFault, f2: DbFault)
    ensures QueryDocuments(DefaultQueryRequest(query), entries, svc, f1, f2)
            == QueryDocuments(QueryRequest(query, None, None, None), entries, svc, f1, f2)
    ensures SearchSimilarDocuments(DefaultQueryRequest(query), entries, svc, f1)
            == SearchSimilarDocuments(QueryRequest(query, None, None, None), entries, svc, f1)
  {
    AnswerAllSameAsNull(query, entries, svc, f1);
  }

  // ---------------------------------------------------------------- search_similar_documents

  /** `SimilarDocument`: the branch and year fields are typed as strings, not optional ones. */
  datatype Similar = Similar(content: string, docName: string, branch: string, year: string, similarity: int,
                             validFrom: Option<string>, validTo: Option<string>)

  /** `SearchResponse`. */
  datatype SearchBody = SearchBody(documents: seq<Similar>, totalFound: nat, embeddingOk: bool)

  /** Whether every dict can be turned into a `SimilarDocument`: no NULL branch or year. */
  predicate Presentable(docs: seq<Doc>) {
    forall i :: 0 <= i < |docs| ==> docs[i].branch.Some? && docs[i].year.Some?
  }

  /** The comprehension building the `SimilarDocument` list. */
  function ToSimilar(docs: seq<Doc>): (r: seq<Similar>)
    requires Presentable(docs)
    ensures |r| == |docs|
  {
    seq(|docs|, i requires 0 <= i < |docs| =>
      Similar(docs[i].content, docs[i].docName, docs[i].branch.value, docs[i].year.value, docs[i].similarity,
              docs[i].validFrom, docs[i].validTo))
  }

  /**
   * `search_similar_documents`. Its `except Exception` also catches the `HTTPException` it
   * raises for a blank query, so that one surfaces as a 500. A failed embedding, or an empty
   * first vector, gives an empty list with `query_embedding_success` false. The search uses
   * `top_k or 5` and the defaulted filters; an escaping search error, or a row whose branch or
   * year is NULL and so fails validation, gives a 500.
   */
  function SearchSimilarDocuments(req: QueryRequest, entries: seq<Entry>, svc: Services, fault: DbFault): (r: Http<SearchBody>)
    ensures r.HttpError? ==> r == HttpError(500, Wrapped(SearchErrorPrefix))
    ensures IsBlank(req.query) ==> r.HttpError?
    ensures r.Ok? ==> r.body.totalFound == |r.body.documents|
    ensures r.Ok? && !r.body.embeddingOk ==> r.body.documents == []
    ensures r.Ok? && r.body.embeddingOk ==>
      && EmbedAll(svc.embed, [req.query]).Some? && EmbedAll(svc.embed, [req.query]).value != []
      && EmbedAll(svc.embed, [req.query]).value[0] != []
  {
    if IsBlank(req.query) then HttpError(500, Wrapped(SearchErrorPrefix))
    else match EmbedAll(svc.embed, [req.query])
      case None => Ok(SearchBody([], 0, false))
      case Some(vs) =>
        if vs == [] || vs[0] == [] then Ok(SearchBody([], 0, false))
        else match Search(entries, Some(vs[0]), TopKOr5(req.topK), Some(OrAll(req.branch)),
                          Some(OrAll(req.year)), fault, svc.score)
          case SearchRaised => HttpError(500, Wrapped(SearchErrorPrefix))
          case Returned(docs) =>
            if !Presentable(docs) then HttpError(500, Wrapped(SearchErrorPrefix))
            else Ok(SearchBody(ToSimilar(docs), |docs|, true))
  }

  /** A blank query is refused by `/query/` with 400 but by `/search-similar/` with 500. */
  lemma BlankQueryStatuses(req: QueryRequest, entries: seq<Entry>, svc: Services, f1: DbFault, f2: DbFault, f3: DbFault)
    requires IsBlank(req.query)
    ensures QueryDocuments(req, entries, svc, f1, f2).status == 400
    ensures SearchSimilarDocuments(req, entries, svc, f3) == HttpError(500, Wrapped(SearchErrorPrefix))
  {
  }

  /** An embedding failure, or an empty first vector, is not an error: an empty list, marked as a failed embedding. */
  lemma SearchSimilarEmbeddingFailure(req: QueryRequest, entries: seq<Entry>, svc: Services, fault: DbFault)
    requires !IsBlank(req.query)
    requires || EmbedAll(svc.embed, [req.query]) in {None, Some([])}
             || (EmbedAll(svc.embed, [req.query]).Some? && EmbedAll(svc.embed, [req.query]).value != []
                 && EmbedAll(svc.embed, [req.query]).value[0] == [])
    ensures SearchSimilarDocuments(req, entries, svc, fault) == Ok(SearchBody([], 0, false))
  {
  }

  /** `total_found` is the length of the list, and a non-empty list comes from a successful embedding. */
  lemma SearchSimilarTotal(req: QueryRequest, entries: seq<Entry>, svc: Services, fault: DbFault)
    requires SearchSimilarDocuments(req, entries, svc, fault).Ok?
    ensures var body := SearchSimilarDocuments(req, entries, svc, fault).body;
      body.totalFound == |body.documents| && (body.documents != [] ==> body.embeddingOk)
  {
  }

  /** The response entries of rows without NULL tags: one per row, with that row's columns and score. */
  lemma ToSimilarOfRows(sel: seq<Entry>, q: Vector, score: Score)
    requires forall i :: 0 <= i < |sel| ==> sel[i].meta.branch.Some? && sel[i].meta.year.Some?
    ensures Presentable(Docs(sel, q, score))
    ensures |ToSimilar(Docs(sel, q, score))| == |sel|
    ensures forall i :: 0 <= i < |sel| ==>
      ToSimilar(Docs(sel, q, score))[i]
      == Similar(sel[i].content, sel[i].meta.docName, sel[i].meta.branch.value, sel[i].meta.year.value,
                 score(sel[i].embedding, q), sel[i].meta.validFrom, sel[i].meta.validTo)
  {
  }

  /**
   * With a vector, no database error and a table without NULL tags, the response lists the
   * search's rows: min(top_k or 5, candidates) of them, each a stored row passing the
   * defaulted filters, in descending similarity, with that row's columns.
   */
  lemma SearchSimilarLists(req: QueryRequest, entries: seq<Entry>, svc: Services)
    requires !IsBlank(req.query)
    requires EmbedAll(svc.embed, [req.query]).Some? && EmbedAll(svc.embed, [req.query]).value != []
    requires EmbedAll(svc.embed, [req.query]).value[0] != []
    requires TopKOr5(req.topK) >= 0
    requires forall e :: e in entries ==> e.meta.branch.Some? && e.meta.year.Some?
    ensures var q := EmbedAll(svc.embed, [req.query]).value[0];
      var b, y := Some(OrAll(req.branch)), Some(OrAll(req.year));
      var sel := SearchEntries(entries, q, TopKOr5(req.topK), b, y, svc.score);
      && (forall i :: 0 <= i < |sel| ==> sel[i] in entries && Candidate(sel[i], b, y))
      && |sel| == Ranking.Min(TopKOr5(req.topK), |Matching(entries, SearchClauses(b, y))|)
      && SearchSimilarDocuments(req, entries, svc, NoFault) == Ok(SearchBody(ToSimilar(Docs(sel, q, svc.score)), |sel|, true))
    ensures SearchSimilarDocuments(req, entries, svc, NoFault).Ok?
    ensures var docs := SearchSimilarDocuments(req, entries, svc, NoFault).body.documents;
      forall i, j :: 0 <= i < j < |docs| ==> docs[i].similarity >= docs[j].similarity
  {
    var q := EmbedAll(svc.embed, [req.query]).value[0];
    var b, y := Some(OrAll(req.branch)), Some(OrAll(req.year));
    var sel := SearchEntries(entries, q, TopKOr5(req.topK), b, y, svc.score);
    SearchSpec(entries, q, TopKOr5(req.topK), b, y, svc.score);
    ToSimilarOfRows(sel, q, svc.score);
    assert Search(entries, Some(q), TopKOr5(req.topK), b, y, NoFault, svc.score) == Returned(Docs(sel, q, svc.score));
  }

  // ---------------------------------------------------------------- list_documents

  /** The statement of `list_documents` up to the WHERE clause. */
  const ListBase: seq<Token> :=
    [Lit("SELECT DISTINCT doc_name, branch, year, valid_from, valid_to, COUNT(*) as chunk_count, MIN(CASE WHEN valid_from IS NOT NULL THEN valid_from END) as earliest_valid, MAX(CASE WHEN valid_to IS NOT NULL THEN valid_to END) as latest_valid FROM documents")]

  const ListTail: seq<Token> :=
    [Lit(" GROUP BY doc_name, branch, year, valid_from, valid_to"), Lit(" ORDER BY doc_name")]

  /** The `conditions` of `list_documents`: exact matches for each filter that is set and not "all". */
  function ListClauses(branch: Option<string>, year: Option<string>): seq<Clause> {
    (if Active(branch) then [BranchIs(branch.value)] else [])
    + (if Active(year) then [YearIs(year.value)] else [])
  }

  /** `if limit:`. */
  predicate HasLimit(limit: Option<int>) {
    limit.Some? && limit.value != 0
  }

  /** Whether a statement has an integer written into its text. */
  predicate WritesInteger(query: seq<Token>) {
    exists t :: t in query && t.IntText?
  }

  /** The statement `list_documents` sends, with a WHERE clause only when some filter is active. */
  function ListQueryText(branch: Option<string>, year: Option<string>, limit: Option<int>): seq<Token> {
    var cs := ListClauses(branch, year);
    ListBase + (if cs != [] then [Lit(" WHERE ")] + JoinAnd(cs) else []) + ListTail
    + (if HasLimit(limit) then [Lit(" LIMIT "), IntText(limit.value)] else [])
  }

  /**
   * The statement holds one placeholder per active filter, a WHERE clause exactly when some
   * filter is active, and an integer in its text exactly when the limit is non-zero, which
   * it then ends with.
   */
  lemma ListQueryTextSpec(branch: Option<string>, year: Option<string>, limit: Option<int>)
    ensures var query := ListQueryText(branch, year, limit);
      && Placeholders(query) == ActiveFilters(branch, year)
      && (Lit(" WHERE ") in query <==> ListClauses(branch, year) != [])
      && (WritesInteger(query) <==> HasLimit(limit))
      && (HasLimit(limit) ==> |query| >= 2 && query[|query| - 2..] == [Lit(" LIMIT "), IntText(limit.value)])
  {
    var cs := ListClauses(branch, year);
    var where := if cs != [] then [Lit(" WHERE ")] + JoinAnd(cs) else [];
    var limitText := if HasLimit(limit) then [Lit(" LIMIT "), IntText(limit.value)] else [];
    assert |cs| == ActiveFilters(branch, year);
    JoinAndPlaceholders(cs);
    assert Placeholders(where) == |cs| by {
      if cs != [] {
        WherePlaceholders([], cs);
        assert [] + [Lit(" WHERE ")] + JoinAnd(cs) == where;
      }
    }
    assert Placeholders(ListBase) == 0 by {
      assert ListBase[1..] == [];
    }
    assert Placeholders(ListTail) == 0 by {
      assert ListTail[1..][1..] == [];
    }
    assert Placeholders(limitText) == 0 by {
      if HasLimit(limit) {
        assert limitText[1..][1..] == [];
      }
    }
    PlaceholdersAppend(ListBase, where);
    PlaceholdersAppend(ListBase + where, ListTail);
    PlaceholdersAppend(ListBase + where + ListTail, limitText);
    assert ListQueryText(branch, year, limit) == ListBase + where + ListTail + limitText;
  }

  /**
   * The statement builder of `list_documents`: one exact-match condition and one parameter per
   * active filter, branch before year, the parameters in step with the placeholders, and a
   * LIMIT written into the text only for a non-zero limit.
   */
  method BuildListQuery(branch: Option<string>, year: Option<string>, limit: Option<int>)
    returns (query: seq<Token>, conditions: seq<Clause>, params: seq<Param>)
    ensures query == ListQueryText(branch, year, limit)
    ensures conditions == ListClauses(branch, year)
    ensures params == BoundValues(conditions)
    ensures |params| == ActiveFilters(branch, year)
    ensures Placeholders(query) == |params|
  {
    query := ListBase;
    conditions := [];
    params := [];
    if Active(branch) {
      conditions := conditions + [BranchIs(branch.value)];
      params := params + [TextParam(branch.value)];
    }
    if Active(year) {
      conditions := conditions + [YearIs(year.value)];
      params := params + [TextParam(year.value)];
    }
    assert params == BoundValues(conditions);
    assert conditions == ListClauses(branch, year);
    if conditions != [] {
      query := query + ([Lit(" WHERE ")] + JoinAnd(conditions));
    } else {
      assert query == ListBase + [];
    }
    query := query + ListTail;
    if HasLimit(limit) {
      query := query + [Lit(" LIMIT "), IntText(limit.value)];
    }
    ListQueryTextSpec(branch, year, limit);
  }

  /**
   * The listing filter matches stored tags exactly: a row is listed iff its branch equals an
   * active branch filter and its year an active year filter; a row stored as "all" is not a
   * wildcard here.
   */
  lemma ListFilterExact(e: Entry, branch: Option<string>, year: Option<string>)
    ensures HoldsAll(ListClauses(branch, year), e.meta.branch, e.meta.year)
            <==> (!Active(branch) || e.meta.branch == branch) && (!Active(year) || e.meta.year == year)
  {
    var cs := ListClauses(branch, year);
    var b, y := e.meta.branch, e.meta.year;
    if Active(branch) && Active(year) {
      assert cs == [BranchIs(branch.value), YearIs(year.value)];
      assert HoldsAll(cs, b, y) <==> Holds(cs[0], b, y) && Holds(cs[1], b, y);
    } else if Active(branch) {
      assert cs == [BranchIs(branch.value)];
      assert HoldsAll(cs, b, y) <==> Holds(cs[0], b, y);
    } else if Active(year) {
      assert cs == [YearIs(year.value)];
      assert HoldsAll(cs, b, y) <==> Holds(cs[0], b, y);
    } else {
      assert cs == [];
    }
  }

  /** A row tagged "all" is found by a search for branch CSE but not listed under it. */
  lemma ListAndSearchDisagreeOnAll(e: Entry)
    requires e.meta.branch == Some("all")
    ensures Candidate(e, Some("CSE"), None)
    ensures !HoldsAll(ListClauses(Some("CSE"), None), e.meta.branch, e.meta.year)
  {
    ListFilterExact(e, Some("CSE"), None);
  }
}
