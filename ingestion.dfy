/**
 * Ingestion (ingestion.py): `get_embeddings`, which sends its input to the embedding service
 * in windows of 100 and concatenates the replies, and `add_document_to_db`, which inserts one
 * row per (chunk, embedding) pair. The embedding service and the PDF chunker are inputs.
 */
module Ingestion {
  import opened Wrappers
  import opened Db
  import Ranking

  const BatchSize: nat := 100

  /** The embedding service's reply to one request: one vector per text, or a failure. */
  datatype EmbedReply = Embedded(vectors: seq<Vector>) | EmbedFailed

  type EmbedService = seq<string> -> EmbedReply

  /** `process_pdf`: the chunks of a stored file, or `None` when loading or splitting fails. */
  type ChunkSource = string -> Option<seq<string>>

  function NumBatches(n: nat): nat {
    (n + BatchSize - 1) / BatchSize
  }

  /** `chunks[i:i + 100]` for the k-th offset i = 100 * k. */
  function Batch(chunks: seq<string>, k: nat): seq<string>
    requires k < NumBatches(|chunks|)
  {
    chunks[k * BatchSize .. Ranking.Min(k * BatchSize + BatchSize, |chunks|)]
  }

  /** The windows `range(0, len(chunks), 100)` cuts the input into. */
  function Batches(chunks: seq<string>): (bs: seq<seq<string>>)
    ensures |bs| == NumBatches(|chunks|)
  {
    seq(NumBatches(|chunks|), k requires 0 <= k < NumBatches(|chunks|) => Batch(chunks, k))
  }

  /** Concatenation, in order. */
  function Concat<T>(ss: seq<seq<T>>): seq<T> {
    if ss == [] then [] else Concat(ss[..|ss| - 1]) + ss[|ss| - 1]
  }

  function VectorsOf(reply: EmbedReply): seq<Vector> {
    match reply
    case Embedded(vs) => vs
    case EmbedFailed => []
  }

  /** The service's replies to the windows, in order. */
  function Replies(embed: EmbedService, bs: seq<seq<string>>): (rs: seq<EmbedReply>)
    ensures |rs| == |bs|
  {
    seq(|bs|, k requires 0 <= k < |bs| => embed(bs[k]))
  }

  /**
   * What `get_embeddings` returns: `None` when any window's request fails, otherwise the
   * vectors of all replies concatenated in window order.
   */
  function EmbedAll(embed: EmbedService, chunks: seq<string>): Option<seq<Vector>> {
    var rs := Replies(embed, Batches(chunks));
    if exists k :: 0 <= k < |rs| && rs[k].EmbedFailed? then None
    else Some(Concat(seq(|rs|, k requires 0 <= k < |rs| => VectorsOf(rs[k]))))
  }

  /**
   * `get_embeddings`: one service request per window of 100, in order; the first failure
   * discards what was gathered and returns `None`.
   */
  method GetEmbeddings(embed: EmbedService, chunks: seq<string>) returns (r: Option<seq<Vector>>)
    ensures r == EmbedAll(embed, chunks)
  {
    ghost var bs := Batches(chunks);
    ghost var rs := Replies(embed, bs);
    ghost var vs := seq(|rs|, k requires 0 <= k < |rs| => VectorsOf(rs[k]));
    var embeddings: seq<Vector> := [];
    var i := 0;
    ghost var k := 0;
    while i < |chunks|
      invariant 0 <= k <= |bs| && i == k * BatchSize
      invariant k < |bs| <==> i < |chunks|
      invariant forall j :: 0 <= j < k ==> rs[j].Embedded?
      invariant embeddings == Concat(vs[..k])
    {
      var batch := chunks[i..Ranking.Min(i + BatchSize, |chunks|)];
      assert batch == bs[k];
      var reply := embed(batch);
      match reply
      case EmbedFailed =>
        assert rs[k].EmbedFailed?;
        return None;
      case Embedded(vectors) =>
        assert vs[..k + 1][..k] == vs[..k];
        embeddings := embeddings + vectors;
      i := i + BatchSize;
      k := k + 1;
    }
    assert vs[..k] == vs;
    r := Some(embeddings);
  }

  lemma {:induction false} ConcatBatchesPrefix(chunks: seq<string>, k: nat)
    requires k <= NumBatches(|chunks|)
    ensures Concat(Batches(chunks)[..k]) == chunks[..Ranking.Min(k * BatchSize, |chunks|)]
  {
    var bs := Batches(chunks);
    if k > 0 {
      ConcatBatchesPrefix(chunks, k - 1);
      assert bs[..k][..k - 1] == bs[..k - 1];
      assert (k - 1) * BatchSize < |chunks|;
      var lo := (k - 1) * BatchSize;
      var hi := Ranking.Min(k * BatchSize, |chunks|);
      assert chunks[..hi] == chunks[..lo] + chunks[lo..hi];
    }
  }

  /**
   * The windows partition the input: ceil(n / 100) of them, each holding 1 to 100 texts,
   * and concatenated in order they give back the input.
   */
  lemma BatchesPartition(chunks: seq<string>)
    ensures |Batches(chunks)| == (|chunks| + 99) / 100
    ensures forall k :: 0 <= k < |Batches(chunks)| ==> 0 < |Batches(chunks)[k]| <= BatchSize
    ensures Concat(Batches(chunks)) == chunks
  {
    var bs := Batches(chunks);
    ConcatBatchesPrefix(chunks, |bs|);
    assert bs[..|bs|] == bs;
    forall k | 0 <= k < |bs| ensures 0 < |bs[k]| <= BatchSize {
      assert k * BatchSize < |chunks|;
    }
  }

  /** No input, no request: the empty list comes back at once. */
  lemma EmptyInputNoRequest(embed: EmbedService)
    ensures Batches([]) == []
    ensures EmbedAll(embed, []) == Some([])
  {
  }

  /** One failing window makes the whole result `None`; no partial result survives. */
  lemma AnyFailureDiscardsAll(embed: EmbedService, chunks: seq<string>, k: nat)
    requires k < |Batches(chunks)| && embed(Batches(chunks)[k]) == EmbedFailed
    ensures EmbedAll(embed, chunks) == None
  {
    assert Replies(embed, Batches(chunks))[k].EmbedFailed?;
  }

  lemma {:induction false} ConcatLength<T, U>(xs: seq<seq<T>>, ys: seq<seq<U>>)
    requires |xs| == |ys| && forall k :: 0 <= k < |xs| ==> |xs[k]| == |ys[k]|
    ensures |Concat(xs)| == |Concat(ys)|
  {
    if xs != [] {
      ConcatLength(xs[..|xs| - 1], ys[..|ys| - 1]);
    }
  }

  /** When every window's reply has one vector per text, there is one vector per input text. */
  lemma EmbedAllLength(embed: EmbedService, chunks: seq<string>)
    requires forall b :: b in Batches(chunks) ==> embed(b).Embedded? && |embed(b).vectors| == |b|
    ensures EmbedAll(embed, chunks).Some?
    ensures |EmbedAll(embed, chunks).value| == |chunks|
  {
    var bs := Batches(chunks);
    var rs := Replies(embed, bs);
    forall k | 0 <= k < |rs| ensures rs[k].Embedded? && |rs[k].vectors| == |bs[k]| {
      assert bs[k] in bs;
    }
    var vs := seq(|rs|, k requires 0 <= k < |rs| => VectorsOf(rs[k]));
    ConcatLength(vs, bs);
    BatchesPartition(chunks);
  }

  function MapSeq<T, U>(f: T -> U, s: seq<T>): (r: seq<U>)
    ensures |r| == |s| && forall i :: 0 <= i < |s| ==> r[i] == f(s[i])
  {
    seq(|s|, i requires 0 <= i < |s| => f(s[i]))
  }

  lemma {:induction false} ConcatMap<T, U>(f: T -> U, ss: seq<seq<T>>)
    ensures Concat(seq(|ss|, k requires 0 <= k < |ss| => MapSeq(f, ss[k]))) == MapSeq(f, Concat(ss))
  {
    var ms := seq(|ss|, k requires 0 <= k < |ss| => MapSeq(f, ss[k]));
    if ss != [] {
      var init := ss[..|ss| - 1];
      ConcatMap(f, init);
      assert ms[..|ms| - 1] == seq(|init|, k requires 0 <= k < |init| => MapSeq(f, init[k]));
      assert MapSeq(f, Concat(init) + ss[|ss| - 1]) == MapSeq(f, Concat(init)) + MapSeq(f, ss[|ss| - 1]);
    }
  }

  /**
   * Batching changes nothing in the order: for a service that embeds each text on its own,
   * the batched result is the text-by-text embedding of the whole input.
   */
  lemma BatchingPreservesOrder(embed: EmbedService, f: string -> Vector, chunks: seq<string>)
    requires forall b :: embed(b) == Embedded(MapSeq(f, b))
    ensures EmbedAll(embed, chunks) == Some(MapSeq(f, chunks))
  {
    var bs := Batches(chunks);
    var rs := Replies(embed, bs);
    var vs := seq(|rs|, k requires 0 <= k < |rs| => VectorsOf(rs[k]));
    assert vs == seq(|bs|, k requires 0 <= k < |bs| => MapSeq(f, bs[k]));
    ConcatMap(f, bs);
    BatchesPartition(chunks);
  }

  /** The number of pairs `zip(chunks, embeddings)` yields. */
  function Pairs(chunks: seq<string>, embeds: seq<Vector>): nat {
    Ranking.Min(|chunks|, |embeds|)
  }

  /** The rows the zip-insert loop has committed so far, and whether an error escaped it. */
  datatype ZipState = ZipState(entries: seq<Entry>, raised: bool)

  /**
   * The zip-insert loop over the first k pairs: pair i is inserted with `fault(i)`; a
   * swallowed error skips that pair, an escaping one ends the loop.
   */
  function ZipInsert(chunks: seq<string>, embeds: seq<Vector>, meta: Meta, fault: nat -> DbFault, k: nat): ZipState
    requires k <= Pairs(chunks, embeds)
  {
    if k == 0 then ZipState([], false)
    else
      var s := ZipInsert(chunks, embeds, meta, fault, k - 1);
      if s.raised then s
      else match fault(k - 1)
        case NoFault => ZipState(s.entries + [Entry(chunks[k - 1], embeds[k - 1], meta)], false)
        case ExecuteFault => s
        case ConnectFault => ZipState(s.entries, true)
  }

  lemma {:induction false} ZipInsertRaisedStays(chunks: seq<string>, embeds: seq<Vector>, meta: Meta,
                                                fault: nat -> DbFault, k: nat, m: nat)
    requires k <= m <= Pairs(chunks, embeds)
    requires ZipInsert(chunks, embeds, meta, fault, k).raised
    ensures ZipInsert(chunks, embeds, meta, fault, m) == ZipInsert(chunks, embeds, meta, fault, k)
  {
    if m > k {
      ZipInsertRaisedStays(chunks, embeds, meta, fault, k, m - 1);
    }
  }

  /** Without database errors the loop inserts every pair, in order, each with the same metadata. */
  lemma {:induction false} ZipInsertAllPairs(chunks: seq<string>, embeds: seq<Vector>, meta: Meta,
                                             fault: nat -> DbFault, k: nat)
    requires k <= Pairs(chunks, embeds)
    requires forall i :: 0 <= i < k ==> fault(i) == NoFault
    ensures !ZipInsert(chunks, embeds, meta, fault, k).raised
    ensures ZipInsert(chunks, embeds, meta, fault, k).entries
            == seq(k, i requires 0 <= i < k => Entry(chunks[i], embeds[i], meta))
  {
    if k > 0 {
      ZipInsertAllPairs(chunks, embeds, meta, fault, k - 1);
    }
  }

  /** Whatever fails, every inserted row carries the same metadata and there are at most k of them. */
  lemma {:induction false} ZipInsertSameMeta(chunks: seq<string>, embeds: seq<Vector>, meta: Meta,
                                             fault: nat -> DbFault, k: nat)
    requires k <= Pairs(chunks, embeds)
    ensures |ZipInsert(chunks, embeds, meta, fault, k).entries| <= k
    ensures forall e :: e in ZipInsert(chunks, embeds, meta, fault, k).entries ==> e.meta == meta
  {
    if k > 0 {
      ZipInsertSameMeta(chunks, embeds, meta, fault, k - 1);
    }
  }

  /**
   * `for chunk, embedding in zip(chunks, embeddings): insert(...)`, the loop of both
   * `add_document_to_db` and `upload_document`: the table grows by the rows `ZipInsert` gives.
   */
  method InsertPairs(store: DocumentStore, chunks: seq<string>, embeds: seq<Vector>, meta: Meta,
                     fault: nat -> DbFault)
    returns (raised: bool)
    requires store.Valid()
    modifies store
    ensures store.Valid()
    ensures var z := ZipInsert(chunks, embeds, meta, fault, Pairs(chunks, embeds));
      store.Entries() == old(store.Entries()) + z.entries && raised == z.raised
  {
    var n := Pairs(chunks, embeds);
    var i := 0;
    raised := false;
    while i < n
      invariant 0 <= i <= n
      invariant store.Valid()
      invariant !ZipInsert(chunks, embeds, meta, fault, i).raised
      invariant store.Entries() == old(store.Entries()) + ZipInsert(chunks, embeds, meta, fault, i).entries
    {
      var outcome := store.Insert(fault(i), chunks[i], embeds[i], meta.docName, meta.branch, meta.year,
                                  meta.validFrom, meta.validTo);
      if outcome.InsertRaised? {
        ZipInsertRaisedStays(chunks, embeds, meta, fault, i + 1, n);
        raised := true;
        return;
      }
      i := i + 1;
    }
  }

  /**
   * The rows `add_document_to_db` adds: none when the chunk list or the embedding list is
   * `None` or empty, otherwise those of the zip-insert loop.
   */
  function Ingested(chunks: Option<seq<string>>, embed: EmbedService, meta: Meta, fault: nat -> DbFault): seq<Entry> {
    if chunks.None? || chunks.value == [] then []
    else match EmbedAll(embed, chunks.value)
      case None => []
      case Some(es) =>
        if es == [] then [] else ZipInsert(chunks.value, es, meta, fault, Pairs(chunks.value, es)).entries
  }

  /**
   * `add_document_to_db`: chunk the file, embed the chunks, insert the pairs. It returns
   * nothing and lets no exception out; its effect is the rows `Ingested` gives.
   */
  method AddDocumentToDb(store: DocumentStore, processPdf: ChunkSource, embed: EmbedService, fault: nat -> DbFault,
                         fileName: string, docName: string,
                         branch: Option<string> := Some("all"), year: Option<string> := Some("all"),
                         validFrom: Option<string> := None, validTo: Option<string> := None)
    requires store.Valid()
    modifies store
    ensures store.Valid()
    ensures store.Entries()
            == old(store.Entries()) + Ingested(processPdf(fileName), embed, Meta(docName, branch, year, validFrom, validTo), fault)
  {
    var chunks := processPdf(fileName);
    if chunks.None? || chunks.value == [] {
      return;
    }
    var embeddings := GetEmbeddings(embed, chunks.value);
    if embeddings.None? || embeddings.value == [] {
      return;
    }
    var meta := Meta(docName, branch, year, validFrom, validTo);
    var raised := InsertPairs(store, chunks.value, embeddings.value, meta, fault);
  }

  /** With chunks and embeddings present and no database error, one row per pair: min(|chunks|, |embeddings|) rows in order. */
  lemma IngestedOnePerPair(chunks: seq<string>, embed: EmbedService, meta: Meta, fault: nat -> DbFault)
    requires chunks != []
    requires EmbedAll(embed, chunks).Some? && EmbedAll(embed, chunks).value != []
    requires forall i :: 0 <= i < |chunks| ==> fault(i) == NoFault
    ensures var es := EmbedAll(embed, chunks).value;
      Ingested(Some(chunks), embed, meta, fault)
      == seq(Pairs(chunks, es), i requires 0 <= i < Pairs(chunks, es) => Entry(chunks[i], es[i], meta))
  {
    var es := EmbedAll(embed, chunks).value;
    ZipInsertAllPairs(chunks, es, meta, fault, Pairs(chunks, es));
  }

  /** Missing chunks or missing embeddings: nothing is inserted. */
  lemma IngestedNothingOnEarlyExit(chunks: Option<seq<string>>, embed: EmbedService, meta: Meta, fault: nat -> DbFault)
    requires chunks.None? || chunks.value == [] || EmbedAll(embed, chunks.value).None? || EmbedAll(embed, chunks.value) == Some([])
    ensures Ingested(chunks, embed, meta, fault) == []
  {
  }

  /** Every row an ingestion adds carries the caller's metadata, and there are at most as many as chunks. */
  lemma IngestedSameMeta(chunks: Option<seq<string>>, embed: EmbedService, meta: Meta, fault: nat -> DbFault)
    ensures forall e :: e in Ingested(chunks, embed, meta, fault) ==> e.meta == meta
    ensures chunks.Some? ==> |Ingested(chunks, embed, meta, fault)| <= |chunks.value|
  {
    if chunks.Some? && chunks.value != [] {
      var r := EmbedAll(embed, chunks.value);
      if r.Some? && r.value != [] {
        ZipInsertSameMeta(chunks.value, r.value, meta, fault, Pairs(chunks.value, r.value));
      }
    }
  }
}
