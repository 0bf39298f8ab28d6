/**
 * The query pipeline (main.py): `answer_query` embeds the question, searches for the seven
 * closest rows under the caller's filters and hands their (content, doc_name) pairs to the
 * responder, the generative-model wrapper of agent.py, which is an input here.
 */
module Query {
  import opened Wrappers
  import opened Db
  import opened Ingestion
  import Ranking

  const AnswerTopK: int := 7
  const NoContextMessage := "No relevant context found in the database."
  const QueryErrorMessage := "Error processing your query."

  /** One entry of the context list: `{"content": ..., "doc_name": ...}`. */
  datatype ContextItem = ContextItem(content: string, docName: string)

  /** `get_gemini_response(context, query)`: always a string, its own failures included. */
  type Responder = (seq<ContextItem>, string) -> string

  /** The external collaborators of a query. */
  datatype Services = Services(embed: EmbedService, score: Score, respond: Responder)

  /** The context comprehension of `answer_query`. */
  function ContextOf(docs: seq<Doc>): (ctx: seq<ContextItem>)
    ensures |ctx| == |docs|
  {
    seq(|docs|, i requires 0 <= i < |docs| => ContextItem(docs[i].content, docs[i].docName))
  }

  /**
   * `answer_query` against a table holding `entries`. `get_embeddings([query])[0]` raises when
   * the embedding call returned `None` (TypeError) or no vector (IndexError); an escaping
   * search error raises too; every exception becomes the fixed error string.
   */
  function AnswerQuery(entries: seq<Entry>, svc: Services, fault: DbFault, query: string,
                       branch: Option<string> := Some("all"), year: Option<string> := Some("all")): (r: string)
    ensures || r == QueryErrorMessage || r == NoContextMessage
            || exists ctx: seq<ContextItem> :: 0 < |ctx| <= 7 && r == svc.respond(ctx, query)
  {
    match EmbedAll(svc.embed, [query])
    case None => QueryErrorMessage
    case Some(vs) =>
      if vs == [] then QueryErrorMessage
      else match Search(entries, Some(vs[0]), AnswerTopK, branch, year, fault, svc.score)
        case SearchRaised => QueryErrorMessage
        case Returned(docs) =>
          if docs == [] then NoContextMessage
          else
            SearchBounds(entries, Some(vs[0]), AnswerTopK, branch, year, fault, svc.score);
            svc.respond(ContextOf(docs), query)
  }

  /** The responder sees the search results' (content, doc_name) pairs: same length, same order. */
  lemma ContextProjects(docs: seq<Doc>)
    ensures |ContextOf(docs)| == |docs|
    ensures forall i :: 0 <= i < |docs| ==>
      ContextOf(docs)[i].content == docs[i].content && ContextOf(docs)[i].docName == docs[i].docName
  {
  }

  /**
   * The outcomes of `answer_query`: the error string when embedding or the search raises,
   * the sentinel for an empty search result, otherwise the responder's output unchanged,
   * computed from the top-7 search under the caller's branch and year filters.
   */
  lemma AnswerQueryCases(entries: seq<Entry>, svc: Services, fault: DbFault, query: string,
                         branch: Option<string>, year: Option<string>)
    ensures EmbedAll(svc.embed, [query]) in {None, Some([])} ==> AnswerQuery(entries, svc, fault, query, branch, year) == QueryErrorMessage
    ensures EmbedAll(svc.embed, [query]).Some? && EmbedAll(svc.embed, [query]).value != [] ==>
      var q := EmbedAll(svc.embed, [query]).value[0];
      var outcome := Search(entries, Some(q), AnswerTopK, branch, year, fault, svc.score);
      && (outcome == SearchRaised ==> AnswerQuery(entries, svc, fault, query, branch, year) == QueryErrorMessage)
      && (outcome == Returned([]) ==> AnswerQuery(entries, svc, fault, query, branch, year) == NoContextMessage)
      && (outcome.Returned? && outcome.docs != [] ==>
            AnswerQuery(entries, svc, fault, query, branch, year) == svc.respond(ContextOf(outcome.docs), query))
  {
  }

  /** When the search finds nothing the responder is never consulted: every responder gives the sentinel. */
  lemma EmptySearchSkipsResponder(entries: seq<Entry>, embed: EmbedService, score: Score, fault: DbFault,
                                  query: string, branch: Option<string>, year: Option<string>)
    requires EmbedAll(embed, [query]).Some? && EmbedAll(embed, [query]).value != []
    requires Search(entries, Some(EmbedAll(embed, [query]).value[0]), AnswerTopK, branch, year, fault, score) == Returned([])
    ensures forall r: Responder :: AnswerQuery(entries, Services(embed, score, r), fault, query, branch, year) == NoContextMessage
  {
  }

  /**
   * For a responder that never answers with the sentinel text itself, `answer_query` returns
   * the sentinel exactly when the query was embedded and the search came back empty.
   */
  lemma NoContextExactlyWhenEmpty(entries: seq<Entry>, svc: Services, fault: DbFault, query: string,
                                  branch: Option<string>, year: Option<string>)
    requires forall ctx :: svc.respond(ctx, query) != NoContextMessage
    ensures AnswerQuery(entries, svc, fault, query, branch, year) == NoContextMessage
            <==> (&& EmbedAll(svc.embed, [query]).Some? && EmbedAll(svc.embed, [query]).value != []
                  && Search(entries, Some(EmbedAll(svc.embed, [query]).value[0]), AnswerTopK, branch, year, fault, svc.score)
                     == Returned([]))
  {
    var r := EmbedAll(svc.embed, [query]);
    if r.Some? && r.value != [] {
      var outcome := Search(entries, Some(r.value[0]), AnswerTopK, branch, year, fault, svc.score);
      if outcome.Returned? && outcome.docs != [] {
        assert AnswerQuery(entries, svc, fault, query, branch, year) == svc.respond(ContextOf(outcome.docs), query);
      }
    }
  }

  /** By default `answer_query` applies no filter: any filter value equal to "all" restricts nothing. */
  lemma DefaultFiltersAdmitAll(e: Entry)
    ensures Candidate(e, Some("all"), Some("all"))
  {
  }

  /** A query embedded once and searched once with top_k = 7: at most seven rows reach the responder. */
  lemma AtMostSevenInContext(entries: seq<Entry>, q: Vector, branch: Option<string>, year: Option<string>, score: Score)
    ensures Search(entries, Some(q), AnswerTopK, branch, year, NoFault, score).Returned?
    ensures |Search(entries, Some(q), AnswerTopK, branch, year, NoFault, score).docs| <= 7
  {
    SearchSpec(entries, q, AnswerTopK, branch, year, score);
  }

  /**
   * The retrieval filter on concrete tags: ECE excludes a CSE row, "all" on either side admits
   * it; a row tagged branch "all" passes any branch filter, and one tagged "all"/"all" any filter.
   */
  lemma FilterExamples(e: Entry, branch: Option<string>, year: Option<string>)
    ensures e.meta.branch == Some("CSE") ==> !Candidate(e, Some("ECE"), None) && Candidate(e, Some("all"), None)
    ensures e.meta.branch == Some("all") ==> Candidate(e, branch, None)
    ensures e.meta.branch == Some("all") && e.meta.year == Some("all") ==> Candidate(e, branch, year)
  {
  }

  /**
   * Ingest a document of three chunks tagged branch "CSE", year "2025", into an empty table;
   * a search for branch "CSE" under any year returns all three, ranked by similarity, and a
   * search for branch "ECE" returns none of them.
   */
  lemma IngestThenSearch(chunks: seq<string>, embed: EmbedService, f: string -> Vector, fault: nat -> DbFault,
                         docName: string, q: Vector, score: Score)
    requires |chunks| == 3
    requires forall b :: embed(b) == Embedded(MapSeq(f, b))
    requires forall i :: 0 <= i < 3 ==> fault(i) == NoFault
    ensures var rows := Ingested(Some(chunks), embed, Meta(docName, Some("CSE"), Some("2025"), None, None), fault);
      && |rows| == 3
      && (forall i :: 0 <= i < 3 ==> rows[i].content == chunks[i])
      && Search(rows, Some(q), AnswerTopK, Some("CSE"), Some("all"), NoFault, score).Returned?
      && |Search(rows, Some(q), AnswerTopK, Some("CSE"), Some("all"), NoFault, score).docs| == 3
      && Search(rows, Some(q), AnswerTopK, Some("ECE"), Some("all"), NoFault, score) == Returned([])
  {
    var meta := Meta(docName, Some("CSE"), Some("2025"), None, None);
    BatchingPreservesOrder(embed, f, chunks);
    IngestedOnePerPair(chunks, embed, meta, fault);
    var rows := Ingested(Some(chunks), embed, meta, fault);
    assert |rows| == 3;
    forall e | e in rows ensures Sql.HoldsAll(SearchClauses(Some("CSE"), Some("all")), e.meta.branch, e.meta.year) {
      SearchClausesMeaning(e, Some("CSE"), Some("all"));
    }
    MatchingAll(rows, SearchClauses(Some("CSE"), Some("all")));
    SearchSpec(rows, q, AnswerTopK, Some("CSE"), Some("all"), score);
    forall e | e in rows ensures !Sql.HoldsAll(SearchClauses(Some("ECE"), Some("all")), e.meta.branch, e.meta.year) {
      SearchClausesMeaning(e, Some("ECE"), Some("all"));
    }
    MatchingNone(rows, SearchClauses(Some("ECE"), Some("all")));
    Ranking.TopKSpec(Matching(rows, SearchClauses(Some("ECE"), Some("all"))), 7, ScoreKey(q, score));
  }
}
