/** Top-k retrieval (`searchDocuments`): score every stored document that
    has an embedding against the query's embedding, sort by descending score
    with a stable sort, and keep the first `limit`. */
module Retrieval {
  import opened Wrappers
  import opened Shared
  import opened Ranking
  import opened OpenAI
  import opened Store

  /** The cosine arithmetic on two vectors of equal length, left abstract. */
  type Similarity = (Embedding, Embedding) -> real

  const LengthMismatch := "Vectors must have the same length"
  const SearchFailed := "Failed to search documents"
  const DefaultSearchLimit := 5

  /** `cosineSimilarity`: vectors of different lengths are an error;
      otherwise the score is the similarity of the two vectors. */
  function CosineSimilarity(similarity: Similarity, a: Embedding, b: Embedding): (r: Result<real>)
    ensures r.Err? <==> |a| != |b|
    ensures r.Err? ==> r.message == LengthMismatch
    ensures r.Ok? ==> r.value == similarity(a, b)
  {
    if |a| != |b| then Err(LengthMismatch) else Ok(similarity(a, b))
  }

  function Score(r: SearchResult): real
  {
    r.score
  }

  /** Some stored embedding has a length different from the query's. */
  predicate Mismatch(documents: seq<StoredDocument>, q: Embedding)
  {
    exists j | 0 <= j < |documents| :: documents[j].embedding.Some? && |documents[j].embedding.value| != |q|
  }

  /** The number of stored documents that have an embedding. */
  function CandidateCount(documents: seq<StoredDocument>): nat
  {
    if documents == [] then 0
    else CandidateCount(documents[..|documents| - 1]) + (if documents[|documents| - 1].embedding.Some? then 1 else 0)
  }

  /** Every stored document that has an embedding, scored against `q`, in store order. */
  function Candidates(documents: seq<StoredDocument>, similarity: Similarity, q: Embedding): seq<SearchResult>
  {
    if documents == [] then []
    else
      var d := documents[|documents| - 1];
      Candidates(documents[..|documents| - 1], similarity, q)
        + (if d.embedding.Some? then [SearchResult(ToDocument(d), similarity(q, d.embedding.value))] else [])
  }

  /** What `searchDocuments` returns: the generic error when the query
      cannot be embedded or some stored vector has the wrong length;
      otherwise the stably sorted candidates cut at `limit`. */
  function Search(documents: seq<StoredDocument>, embed: Embedder, similarity: Similarity, query: string,
                  limit: int := DefaultSearchLimit): (r: Result<seq<SearchResult>>)
    ensures r.Err? ==> r.message == SearchFailed
    ensures r.Ok? ==> |r.value| <= CandidateCount(documents)
  {
    match GetEmbedding(embed, query)
    case Err(_) => Err(SearchFailed)
    case Ok(q) =>
      if Mismatch(documents, q) then Err(SearchFailed)
      else
        CandidatesFromStore(documents, similarity, q);
        Ok(Take(SortDesc(Candidates(documents, similarity, q), Score), limit))
  }

  /** `searchDocuments`: the scan loop that scores each embedded document
      and stops the whole search at the first length mismatch. */
  method SearchDocuments(documents: seq<StoredDocument>, embed: Embedder, similarity: Similarity, query: string,
                         limit: int := DefaultSearchLimit)
    returns (r: Result<seq<SearchResult>>)
    ensures r == Search(documents, embed, similarity, query, limit)
  {
    var queryEmbedding := GetEmbedding(embed, query);
    if queryEmbedding.Err? {
      return Err(SearchFailed);
    }
    var q := queryEmbedding.value;
    var results: seq<SearchResult> := [];
    for i := 0 to |documents|
      invariant results == Candidates(documents[..i], similarity, q)
      invariant !Mismatch(documents[..i], q)
    {
      var doc := documents[i];
      assert documents[..i + 1][..i] == documents[..i];
      if doc.embedding.Some? {
        var score := CosineSimilarity(similarity, q, doc.embedding.value);
        if score.Err? {
          assert Mismatch(documents, q);
          return Err(SearchFailed);
        }
        results := results + [SearchResult(ToDocument(doc), score.value)];
      }
    }
    assert documents[..|documents|] == documents;
    r := Ok(Take(SortDesc(results, Score), limit));
  }

  /** A search fails exactly when the query cannot be embedded or some
      stored embedding differs in length from the query's; no partial list. */
  lemma SearchFailsIff(documents: seq<StoredDocument>, embed: Embedder, similarity: Similarity, query: string, limit: int)
    ensures Search(documents, embed, similarity, query, limit).Err? <==>
              || embed(query).None?
              || exists j :: 0 <= j < |documents| && documents[j].embedding.Some?
                               && |documents[j].embedding.value| != |embed(query).value|
    ensures Search(documents, embed, similarity, query, limit).Err? ==>
              Search(documents, embed, similarity, query, limit).message == SearchFailed
  {
  }

  /** `x` is some stored document `documents[j]` that has an embedding,
      copied field by field, with its similarity to `q` as score. */
  ghost predicate ScoredFromStore(documents: seq<StoredDocument>, similarity: Similarity, q: Embedding, x: SearchResult)
  {
    exists j :: 0 <= j < |documents| && documents[j].embedding.Some?
                && x == SearchResult(ToDocument(documents[j]), similarity(q, documents[j].embedding.value))
  }

  /** There is one candidate per embedded document, and each candidate is
      scored from the store. */
  lemma {:induction false} CandidatesFromStore(documents: seq<StoredDocument>, similarity: Similarity, q: Embedding)
    ensures |Candidates(documents, similarity, q)| == CandidateCount(documents)
    ensures forall x :: x in Candidates(documents, similarity, q) ==> ScoredFromStore(documents, similarity, q, x)
    ensures forall j :: 0 <= j < |documents| && documents[j].embedding.Some? ==>
              SearchResult(ToDocument(documents[j]), similarity(q, documents[j].embedding.value))
                in Candidates(documents, similarity, q)
  {
    if documents != [] {
      var init := documents[..|documents| - 1];
      CandidatesFromStore(init, similarity, q);
      var c := Candidates(documents, similarity, q);
      var ci := Candidates(init, similarity, q);
      forall x | x in c ensures ScoredFromStore(documents, similarity, q, x) {
        if x in ci {
          var j :| 0 <= j < |init| && init[j].embedding.Some?
                   && x == SearchResult(ToDocument(init[j]), similarity(q, init[j].embedding.value));
          assert documents[j] == init[j];
        } else {
          var j := |documents| - 1;
          assert x == SearchResult(ToDocument(documents[j]), similarity(q, documents[j].embedding.value));
        }
      }
      forall j | 0 <= j < |documents| - 1 && documents[j].embedding.Some?
        ensures SearchResult(ToDocument(documents[j]), similarity(q, documents[j].embedding.value)) in c
      {
        assert init[j] == documents[j];
      }
    }
  }

  /** A successful search returns `slice(0, limit)` of the embedded
      documents' count, that is min(limit, count) for a non-negative limit;
      the results are ordered by non-increasing score; equal scores keep
      store order (the results with a given score are a prefix of the
      candidates with that score); and no candidate left out scores higher
      than any result. */
  lemma SearchReturnsTopK(documents: seq<StoredDocument>, embed: Embedder, similarity: Similarity, query: string, limit: int)
    requires Search(documents, embed, similarity, query, limit).Ok?
    ensures var r := Search(documents, embed, similarity, query, limit).value;
      && |r| == SliceEnd(CandidateCount(documents), limit)
      && (0 <= limit ==> |r| == if limit < CandidateCount(documents) then limit else CandidateCount(documents))
      && SortedDesc(r, Score)
      && (forall v :: WithKey(r, Score, v) <= WithKey(Candidates(documents, similarity, embed(query).value), Score, v))
      && (forall c, i :: c in Candidates(documents, similarity, embed(query).value) && c !in r && 0 <= i < |r| ==>
            c.score <= r[i].score)
  {
    var q := embed(query).value;
    var c := Candidates(documents, similarity, q);
    var sorted := SortDesc(c, Score);
    CandidatesFromStore(documents, similarity, q);
    SortDescCorrect(c, Score);
    TakeOfSorted(sorted, limit, Score);
    var r := Search(documents, embed, similarity, query, limit).value;
    assert r == Take(sorted, limit);
    forall v ensures WithKey(r, Score, v) <= WithKey(c, Score, v) {
      assert WithKey(sorted, Score, v) == WithKey(c, Score, v);
    }
    forall x, i | x in c && x !in r && 0 <= i < |r| ensures x.score <= r[i].score {
      assert x in multiset(sorted);
      assert Score(x) <= Score(r[i]);
    }
  }

  /** Every result is a stored document that has an embedding, with its id,
      content, metadata and embedding copied and its similarity to the query
      as score. */
  lemma SearchResultsComeFromStore(documents: seq<StoredDocument>, embed: Embedder, similarity: Similarity, query: string, limit: int)
    requires Search(documents, embed, similarity, query, limit).Ok?
    ensures forall x :: x in Search(documents, embed, similarity, query, limit).value ==>
              ScoredFromStore(documents, similarity, embed(query).value, x)
    ensures forall x :: x in Search(documents, embed, similarity, query, limit).value ==>
              x.document.embedding.Some?
  {
    var q := embed(query).value;
    var c := Candidates(documents, similarity, q);
    var sorted := SortDesc(c, Score);
    CandidatesFromStore(documents, similarity, q);
    SortDescCorrect(c, Score);
    var r := Search(documents, embed, similarity, query, limit).value;
    assert r == sorted[..SliceEnd(|sorted|, limit)];
    forall x | x in r ensures ScoredFromStore(documents, similarity, q, x) {
      assert x in multiset(sorted);
    }
  }
  /** Three embedded documents where the first and the third score the same
      and the second scores lower: the top two are the first and the third,
      in store order. */
  lemma TiedScoresKeepStoreOrder(a: StoredDocument, b: StoredDocument, c: StoredDocument,
                                 embed: Embedder, similarity: Similarity, query: string)
    requires embed(query).Some?
    requires a.embedding.Some? && b.embedding.Some? && c.embedding.Some?
    requires |a.embedding.value| == |b.embedding.value| == |c.embedding.value| == |embed(query).value|
    requires similarity(embed(query).value, a.embedding.value) == 1.0
    requires similarity(embed(query).value, b.embedding.value) == 0.0
    requires similarity(embed(query).value, c.embedding.value) == 1.0
    ensures Search([a, b, c], embed, similarity, query, 2)
            == Ok([SearchResult(ToDocument(a), 1.0), SearchResult(ToDocument(c), 1.0)])
  {
    var q := embed(query).value;
    var docs := [a, b, c];
    var ra := SearchResult(ToDocument(a), 1.0);
    var rb := SearchResult(ToDocument(b), 0.0);
    var rc := SearchResult(ToDocument(c), 1.0);
    assert docs[..2] == [a, b] && [a, b][..1] == [a] && [a][..0] == [];
    assert Candidates([a], similarity, q) == [ra];
    assert Candidates([a, b], similarity, q) == [ra, rb];
    assert Candidates(docs, similarity, q) == [ra, rb, rc];
    assert !Mismatch(docs, q);
    assert [rb, rc][1..] == [rc] && [ra, rb, rc][1..] == [rb, rc];
    assert SortDesc([rc], Score) == [rc];
    assert Insert(rb, [rc], Score) == [rc] + Insert(rb, [], Score) == [rc, rb];
    assert SortDesc([rb, rc], Score) == [rc, rb];
    assert SortDesc([ra, rb, rc], Score) == [ra, rc, rb];
    assert Take([ra, rc, rb], 2) == [ra, rc];
    assert GetEmbedding(embed, query) == Ok(q);
  }
}
