/**
 * The `documents` table (db.py): `insert`, which appends one row, and
 * `fetch_similar_documents`, which filters by branch and year, ranks by similarity and
 * truncates to `top_k`. The storage engine is an in-memory sequence of rows; the
 * engine's cosine similarity is an abstract integer score; each call's database failure
 * is an input (`DbFault`).
 */
module Db {
  import opened Wrappers
  import opened Sql
  import Ranking

  type Vector = seq<real>

  /** The engine's `1 - (embedding <=> query)` for a stored vector and the query vector. */
  type Score = (Vector, Vector) -> int

  /** The metadata columns of a row. `None` is SQL NULL. */
  datatype Meta = Meta(docName: string, branch: Option<string>, year: Option<string>,
                       validFrom: Option<string>, validTo: Option<string>)

  /** The columns of a row apart from its generated id. */
  datatype Entry = Entry(content: string, embedding: Vector, meta: Meta)

  datatype Row = Row(docId: nat, entry: Entry)

  /** One dict of the list `fetch_similar_documents` returns. */
  datatype Doc = Doc(content: string, docName: string, branch: Option<string>, year: Option<string>,
                     validFrom: Option<string>, validTo: Option<string>, similarity: int)

  /**
   * How a database call goes wrong, if it does. `ConnectFault`: opening the connection or
   * the cursor raises, so `cursor` is never bound. `ExecuteFault`: `execute`, `fetchall` or
   * `commit` raises once the cursor exists.
   */
  datatype DbFault = NoFault | ConnectFault | ExecuteFault

  /**
   * The result of `insert`: the row was committed, the error was printed and swallowed, or an
   * error escaped because the `finally` clause closed a cursor that was never bound.
   */
  datatype InsertOutcome = Inserted | Swallowed | InsertRaised

  /** The result of `fetch_similar_documents`: a list of dicts, or an exception escaping it. */
  datatype SearchOutcome = Returned(docs: seq<Doc>) | SearchRaised

  /** `value and value != "all"`: a filter value that restricts its dimension. */
  predicate Active(filter: Option<string>) {
    filter.Some? && filter.value != "" && filter.value != "all"
  }

  function ActiveFilters(branch: Option<string>, year: Option<string>): nat {
    (if Active(branch) then 1 else 0) + (if Active(year) then 1 else 0)
  }

  /**
   * The filter as the search promises it: each dimension is unrestricted when its filter is
   * falsy or "all", and otherwise admits the filter value and rows stored as "all".
   */
  predicate Candidate(e: Entry, branch: Option<string>, year: Option<string>) {
    && (branch == None || branch == Some("") || branch == Some("all")
        || e.meta.branch == branch || e.meta.branch == Some("all"))
    && (year == None || year == Some("") || year == Some("all")
        || e.meta.year == year || e.meta.year == Some("all"))
  }

  /** The `conditions` list `fetch_similar_documents` builds. */
  function SearchClauses(branch: Option<string>, year: Option<string>): seq<Clause> {
    (if Active(branch) then [BranchOrAll(branch.value)] else [])
    + (if Active(year) then [YearOrAll(year.value)] else [])
  }

  /** The WHERE clause built from the filters admits exactly the candidates. */
  lemma SearchClausesMeaning(e: Entry, branch: Option<string>, year: Option<string>)
    ensures HoldsAll(SearchClauses(branch, year), e.meta.branch, e.meta.year) <==> Candidate(e, branch, year)
  {
    var cs := SearchClauses(branch, year);
    var b, y := e.meta.branch, e.meta.year;
    if Active(branch) && Active(year) {
      assert cs == [BranchOrAll(branch.value), YearOrAll(year.value)];
      assert HoldsAll(cs, b, y) <==> Holds(cs[0], b, y) && Holds(cs[1], b, y);
    } else if Active(branch) {
      assert cs == [BranchOrAll(branch.value)];
      assert HoldsAll(cs, b, y) <==> Holds(cs[0], b, y);
    } else if Active(year) {
      assert cs == [YearOrAll(year.value)];
      assert HoldsAll(cs, b, y) <==> Holds(cs[0], b, y);
    } else {
      assert cs == [];
    }
  }

  /** The rows a WHERE clause admits, in table order. */
  function Matching(entries: seq<Entry>, cs: seq<Clause>): seq<Entry> {
    if entries == [] then []
    else
      var last := entries[|entries| - 1];
      assert entries == entries[..|entries| - 1] + [last];
      Matching(entries[..|entries| - 1], cs)
      + (if HoldsAll(cs, last.meta.branch, last.meta.year) then [last] else [])
  }

  /** The WHERE clause keeps every copy of each row that satisfies it and drops every other row. */
  lemma {:induction false} MatchingCount(entries: seq<Entry>, cs: seq<Clause>)
    ensures forall e :: multiset(Matching(entries, cs))[e]
                        == if HoldsAll(cs, e.meta.branch, e.meta.year) then multiset(entries)[e] else 0
  {
    if entries != [] {
      var init, last := entries[..|entries| - 1], entries[|entries| - 1];
      assert entries == init + [last];
      MatchingCount(init, cs);
    }
  }

  /** A WHERE clause every row satisfies keeps the whole table, in order. */
  lemma {:induction false} MatchingAll(entries: seq<Entry>, cs: seq<Clause>)
    requires forall e :: e in entries ==> HoldsAll(cs, e.meta.branch, e.meta.year)
    ensures Matching(entries, cs) == entries
  {
    if entries != [] {
      MatchingAll(entries[..|entries| - 1], cs);
      assert entries == entries[..|entries| - 1] + [entries[|entries| - 1]];
    }
  }

  /** A WHERE clause no row satisfies keeps nothing. */
  lemma {:induction false} MatchingNone(entries: seq<Entry>, cs: seq<Clause>)
    requires forall e :: e in entries ==> !HoldsAll(cs, e.meta.branch, e.meta.year)
    ensures Matching(entries, cs) == []
  {
    if entries != [] {
      MatchingNone(entries[..|entries| - 1], cs);
    }
  }

  lemma {:induction false} MatchingLength(entries: seq<Entry>, cs: seq<Clause>)
    ensures |Matching(entries, cs)| <= |entries|
  {
    if entries != [] {
      MatchingLength(entries[..|entries| - 1], cs);
    }
  }

  function ScoreKey(q: Vector, score: Score): Entry -> int {
    (e: Entry) => score(e.embedding, q)
  }

  /** The rows `SELECT ... WHERE ... ORDER BY similarity DESC LIMIT top_k` yields. */
  function SearchEntries(entries: seq<Entry>, q: Vector, topK: nat, branch: Option<string>,
                         year: Option<string>, score: Score): seq<Entry> {
    Ranking.TopK(Matching(entries, SearchClauses(branch, year)), topK, ScoreKey(q, score))
  }

  /** The row-to-dict comprehension. */
  function Docs(es: seq<Entry>, q: Vector, score: Score): (ds: seq<Doc>)
    ensures |ds| == |es|
  {
    seq(|es|, i requires 0 <= i < |es| =>
      Doc(es[i].content, es[i].meta.docName, es[i].meta.branch, es[i].meta.year,
          es[i].meta.validFrom, es[i].meta.validTo, score(es[i].embedding, q)))
  }

  /**
   * What `fetch_similar_documents` returns for a table holding `entries`. No query vector:
   * `[]` before the database is touched. A failed connection: the `except` clause's `return []`
   * is overridden by the `finally` clause's `cursor.close()` on an unbound cursor, so an
   * error escapes. A failing statement, including the engine rejecting a negative LIMIT: `[]`.
   */
  function Search(entries: seq<Entry>, query: Option<Vector>, topK: int, branch: Option<string>,
                  year: Option<string>, fault: DbFault, score: Score): SearchOutcome {
    if query.None? then Returned([])
    else match fault
      case ConnectFault => SearchRaised
      case ExecuteFault => Returned([])
      case NoFault =>
        if topK < 0 then Returned([])
        else Returned(Docs(SearchEntries(entries, query.value, topK, branch, year, score), query.value, score))
  }

  /** Every row a search selects is a stored row that passes the filter. */
  lemma SelectedAreCandidates(entries: seq<Entry>, q: Vector, topK: nat, branch: Option<string>,
                              year: Option<string>, score: Score)
    ensures var sel := SearchEntries(entries, q, topK, branch, year, score);
      forall i :: 0 <= i < |sel| ==> sel[i] in entries && Candidate(sel[i], branch, year)
  {
    var cands := Matching(entries, SearchClauses(branch, year));
    var sel := SearchEntries(entries, q, topK, branch, year, score);
    MatchingCount(entries, SearchClauses(branch, year));
    Ranking.TopKSpec(cands, topK, ScoreKey(q, score));
    forall i | 0 <= i < |sel| ensures sel[i] in entries && Candidate(sel[i], branch, year) {
      assert sel[i] in multiset(sel);
      assert multiset(cands)[sel[i]] > 0;
      SearchClausesMeaning(sel[i], branch, year);
    }
  }

  /** A candidate that is not returned (or returned fewer times than stored) scores no higher than any returned row. */
  lemma OmittedScoreNoHigher(entries: seq<Entry>, q: Vector, topK: nat, branch: Option<string>,
                             year: Option<string>, score: Score)
    ensures var sel := SearchEntries(entries, q, topK, branch, year, score);
      forall e, i ::
        (e in entries && Candidate(e, branch, year) && multiset(sel)[e] < multiset(entries)[e] && 0 <= i < |sel|)
        ==> score(e.embedding, q) <= score(sel[i].embedding, q)
  {
    var cands := Matching(entries, SearchClauses(branch, year));
    var key := ScoreKey(q, score);
    var sel := SearchEntries(entries, q, topK, branch, year, score);
    MatchingCount(entries, SearchClauses(branch, year));
    Ranking.TopKSpec(cands, topK, key);
    forall e, i | e in entries && Candidate(e, branch, year) && multiset(sel)[e] < multiset(entries)[e] && 0 <= i < |sel|
      ensures score(e.embedding, q) <= score(sel[i].embedding, q)
    {
      SearchClausesMeaning(e, branch, year);
      assert e in multiset(cands) - multiset(sel);
      assert key(e) <= key(sel[i]);
    }
  }

  /**
   * A successful search returns min(top_k, number of candidates) rows, each a stored row that
   * passes the filter, in descending similarity; a candidate left out scores no higher than any
   * row returned; each dict carries the columns of its row and that row's score.
   */
  lemma SearchSpec(entries: seq<Entry>, q: Vector, topK: int, branch: Option<string>,
                   year: Option<string>, score: Score)
    requires topK >= 0
    ensures var sel := SearchEntries(entries, q, topK, branch, year, score);
      && Search(entries, Some(q), topK, branch, year, NoFault, score) == Returned(Docs(sel, q, score))
      && |sel| == Ranking.Min(topK, |Matching(entries, SearchClauses(branch, year))|)
      && (forall i :: 0 <= i < |sel| ==> sel[i] in entries && Candidate(sel[i], branch, year))
      && (forall i, j :: 0 <= i < j < |sel| ==> score(sel[i].embedding, q) >= score(sel[j].embedding, q))
      && (forall e, i ::
            (e in entries && Candidate(e, branch, year) && multiset(sel)[e] < multiset(entries)[e] && 0 <= i < |sel|)
            ==> score(e.embedding, q) <= score(sel[i].embedding, q))
      && (forall i :: 0 <= i < |sel| ==>
            Docs(sel, q, score)[i] == Doc(sel[i].content, sel[i].meta.docName, sel[i].meta.branch, sel[i].meta.year,
                                          sel[i].meta.validFrom, sel[i].meta.validTo, score(sel[i].embedding, q)))
  {
    var cands := Matching(entries, SearchClauses(branch, year));
    var key := ScoreKey(q, score);
    var sel := SearchEntries(entries, q, topK, branch, year, score);
    Ranking.TopKSpec(cands, topK, key);
    SelectedAreCandidates(entries, q, topK, branch, year, score);
    OmittedScoreNoHigher(entries, q, topK, branch, year, score);
    forall i, j | 0 <= i < j < |sel| ensures score(sel[i].embedding, q) >= score(sel[j].embedding, q) {
      assert key(sel[i]) >= key(sel[j]);
    }
  }

  /** A search returns at most `top_k` rows (none for a negative one) and no more than the table holds. */
  lemma SearchBounds(entries: seq<Entry>, query: Option<Vector>, topK: int, branch: Option<string>,
                     year: Option<string>, fault: DbFault, score: Score)
    ensures var r := Search(entries, query, topK, branch, year, fault, score);
      r.Returned? ==> |r.docs| <= Ranking.Min(if topK < 0 then 0 else topK, |entries|)
  {
    if query.Some? && fault == NoFault && topK >= 0 {
      MatchingLength(entries, SearchClauses(branch, year));
      Ranking.TopKSpec(Matching(entries, SearchClauses(branch, year)), topK, ScoreKey(query.value, score));
    }
  }

  /** A search depends on the filters only through the conditions they produce. */
  lemma SearchSameClauses(entries: seq<Entry>, query: Option<Vector>, topK: int, b1: Option<string>, y1: Option<string>,
                          b2: Option<string>, y2: Option<string>, fault: DbFault, score: Score)
    requires SearchClauses(b1, y1) == SearchClauses(b2, y2)
    ensures Search(entries, query, topK, b1, y1, fault, score) == Search(entries, query, topK, b2, y2, fault, score)
  {
    if query.Some? && topK >= 0 {
      assert SearchEntries(entries, query.value, topK, b1, y1, score) == SearchEntries(entries, query.value, topK, b2, y2, score);
    }
  }

  /** A null query vector short-circuits to an empty list, whatever state the database is in. */
  lemma SearchWithoutVector(entries: seq<Entry>, topK: int, branch: Option<string>,
                            year: Option<string>, fault: DbFault, score: Score)
    ensures Search(entries, None, topK, branch, year, fault, score) == Returned([])
  {
  }

  /** A database error after the cursor exists yields `[]`; one before it escapes. */
  lemma SearchErrors(entries: seq<Entry>, q: Vector, topK: int, branch: Option<string>,
                     year: Option<string>, score: Score)
    ensures Search(entries, Some(q), topK, branch, year, ExecuteFault, score) == Returned([])
    ensures Search(entries, Some(q), topK, branch, year, ConnectFault, score) == SearchRaised
    ensures topK < 0 ==> Search(entries, Some(q), topK, branch, year, NoFault, score) == Returned([])
  {
  }

  /** The statement of `fetch_similar_documents` up to the WHERE clause. */
  const SearchBase: seq<Token> :=
    [Lit("SELECT content, doc_name, branch, year, valid_from, valid_to, 1 - (embedding <=> "),
     Placeholder, Lit("::vector) AS similarity FROM documents")]

  const SearchTail: seq<Token> := [Lit(" ORDER BY similarity DESC LIMIT "), Placeholder, Lit(";")]

  /** The statement `fetch_similar_documents` sends, with a WHERE clause only when some filter is active. */
  function SearchQueryText(branch: Option<string>, year: Option<string>): seq<Token> {
    var cs := SearchClauses(branch, year);
    SearchBase + (if cs != [] then [Lit(" WHERE ")] + JoinAnd(cs) else []) + SearchTail
  }

  /**
   * The statement holds one placeholder for the vector, one per active filter and one for
   * the limit, and a WHERE clause exactly when some filter is active.
   */
  lemma SearchQueryTextSpec(branch: Option<string>, year: Option<string>)
    ensures Placeholders(SearchQueryText(branch, year)) == ActiveFilters(branch, year) + 2
    ensures Lit(" WHERE ") in SearchQueryText(branch, year) <==> SearchClauses(branch, year) != []
  {
    var cs := SearchClauses(branch, year);
    var where := if cs != [] then [Lit(" WHERE ")] + JoinAnd(cs) else [];
    assert |cs| == ActiveFilters(branch, year);
    JoinAndPlaceholders(cs);
    assert Placeholders(where) == |cs| by {
      if cs != [] {
        WherePlaceholders([], cs);
        assert [] + [Lit(" WHERE ")] + JoinAnd(cs) == where;
      }
    }
    assert Placeholders(SearchBase) == 1 by {
      assert SearchBase[1..][1..][1..] == [];
    }
    assert Placeholders(SearchTail) == 1 by {
      assert SearchTail[1..][1..][1..] == [];
    }
    PlaceholdersAppend(SearchBase, where);
    PlaceholdersAppend(SearchBase + where, SearchTail);
  }

  /**
   * The SQL builder of `fetch_similar_documents`: one condition and one parameter per active
   * filter, branch before year, between the query vector and the LIMIT value, the list of
   * parameters in step with the placeholders of the text.
   */
  method BuildSearchQuery(queryEmbedding: Vector, topK: int, branch: Option<string>, year: Option<string>)
    returns (sql: seq<Token>, conditions: seq<Clause>, params: seq<Param>)
    ensures sql == SearchQueryText(branch, year)
    ensures conditions == SearchClauses(branch, year)
    ensures params == [VectorParam(queryEmbedding)] + BoundValues(conditions) + [IntParam(topK)]
    ensures |params| == ActiveFilters(branch, year) + 2
    ensures Placeholders(sql) == |params|
    ensures Lit(" WHERE ") in sql <==> conditions != []
  {
    sql := SearchBase;
    conditions := [];
    params := [VectorParam(queryEmbedding)];
    if Active(branch) {
      conditions := conditions + [BranchOrAll(branch.value)];
      params := params + [TextParam(branch.value)];
    }
    if Active(year) {
      conditions := conditions + [YearOrAll(year.value)];
      params := params + [TextParam(year.value)];
    }
    assert params == [VectorParam(queryEmbedding)] + BoundValues(conditions);
    assert conditions == SearchClauses(branch, year);
    if conditions != [] {
      sql := sql + ([Lit(" WHERE ")] + JoinAnd(conditions));
    } else {
      assert sql == SearchBase + [];
    }
    sql := sql + SearchTail;
    params := params + [IntParam(topK)];
    SearchQueryTextSpec(branch, year);
  }

  /** The storage engine running a built search statement against the table. */
  function Execute(entries: seq<Entry>, conditions: seq<Clause>, params: seq<Param>, score: Score): seq<Entry>
    requires |params| >= 2 && params[0].VectorParam? && params[|params| - 1].IntParam?
    requires params[|params| - 1].n >= 0
  {
    Ranking.TopK(Matching(entries, conditions), params[|params| - 1].n, ScoreKey(params[0].v, score))
  }

  /** The `documents` table. */
  class DocumentStore {
    var rows: seq<Row>
    /** Source of fresh ids; stands for `uuid.uuid4()`. */
    var nextId: nat

    /** Every id is below `nextId` and no two rows share one. */
    ghost predicate Valid()
      reads this
    {
      && (forall i :: 0 <= i < |rows| ==> rows[i].docId < nextId)
      && (forall i, j :: 0 <= i < j < |rows| ==> rows[i].docId != rows[j].docId)
    }

    /** The table's rows without their ids, in insertion order. */
    function Entries(): (es: seq<Entry>)
      reads this
      ensures |es| == |rows|
      ensures forall i :: 0 <= i < |rows| ==> es[i] == rows[i].entry
    {
      seq(|rows|, i requires 0 <= i < |rows| reads this => rows[i].entry)
    }

    constructor ()
      ensures Valid() && rows == []
    {
      rows := [];
      nextId := 0;
    }

    /**
     * `insert`: on success exactly one row is appended, holding the given columns and an id
     * no earlier row has; when execute or commit fails the error is swallowed and nothing is
     * added; when the connection fails nothing is added and an error escapes.
     */
    method Insert(fault: DbFault, content: string, embedding: Vector, docName: string,
                  branch: Option<string> := Some("all"), year: Option<string> := Some("all"),
                  validFrom: Option<string> := None, validTo: Option<string> := None)
      returns (outcome: InsertOutcome)
      requires Valid()
      modifies this
      ensures Valid()
      ensures outcome.Inserted? <==> fault.NoFault?
      ensures outcome.InsertRaised? <==> fault.ConnectFault?
      ensures outcome.Inserted? ==>
        var entry := Entry(content, embedding, Meta(docName, branch, year, validFrom, validTo));
        && |rows| == |old(rows)| + 1
        && rows[..|old(rows)|] == old(rows)
        && rows[|rows| - 1].entry == entry
        && (forall i :: 0 <= i < |old(rows)| ==> old(rows)[i].docId != rows[|rows| - 1].docId)
        && Entries() == old(Entries()) + [entry]
      ensures !outcome.Inserted? ==> rows == old(rows)
    {
      var docId := nextId;
      nextId := nextId + 1;
      match fault
      case ConnectFault =>
        outcome := InsertRaised;
      case ExecuteFault =>
        outcome := Swallowed;
      case NoFault =>
        var entry := Entry(content, embedding, Meta(docName, branch, year, validFrom, validTo));
        rows := rows + [Row(docId, entry)];
        outcome := Inserted;
    }

    /**
     * `fetch_similar_documents`: builds the statement, runs it on the table, and maps the
     * rows it yields to dicts; the outcome is `Search` of the table's contents.
     */
    method FetchSimilar(fault: DbFault, score: Score, queryEmbedding: Option<Vector>, topK: int := 5,
                        branch: Option<string> := Some("all"), year: Option<string> := Some("all"))
      returns (outcome: SearchOutcome)
      ensures outcome == Search(Entries(), queryEmbedding, topK, branch, year, fault, score)
    {
      if queryEmbedding.None? {
        return Returned([]);
      }
      var q := queryEmbedding.value;
      var sql, conditions, params := BuildSearchQuery(q, topK, branch, year);
      match fault
      case ConnectFault =>
        outcome := SearchRaised;
      case ExecuteFault =>
        outcome := Returned([]);
      case NoFault =>
        if topK < 0 {
          outcome := Returned([]);
        } else {
          var results := Execute(Entries(), conditions, params, score);
          outcome := Returned(Docs(results, q, score));
        }
    }
  }

  /** An `insert` call that leaves out the optional arguments stores "all", "all", NULL, NULL. */
  method InsertWithDefaults(content: string, embedding: Vector, docName: string) returns (row: Row)
    ensures row.entry == Entry(content, embedding, Meta(docName, Some("all"), Some("all"), None, None))
  {
    var store := new DocumentStore();
    var outcome := store.Insert(NoFault, content, embedding, docName);
    row := store.rows[0];
  }
}
