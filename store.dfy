/** The "documents" collection and the two operations of the RAG service
    that write and list it: `addDocument` and `getDocuments`. */
module Store {
  import opened Wrappers
  import opened Shared
  import opened Ranking
  import opened OpenAI

  /** A MongoDB ObjectId, identified by the counter value it was drawn from. */
  type ObjectId = nat

  /** A stored document: the shared `Document` fields plus `createdAt` (milliseconds). */
  datatype StoredDocument = StoredDocument(
    id: ObjectId,
    content: string,
    metadata: Option<Metadata>,
    embedding: Option<Embedding>,
    createdAt: int)

  const AddFailed := "Failed to add document"
  const DefaultListLimit := 50

  function DigitChar(d: nat): char
    requires d < 10
  {
    "0123456789"[d]
  }

  /** `_id.toString()`: the decimal digits of the id. */
  function IdText(id: ObjectId): (t: string)
    ensures |t| > 0
  {
    if id < 10 then [DigitChar(id)] else IdText(id / 10) + [DigitChar(id % 10)]
  }

  /** The shared view of a stored document. */
  function ToDocument(d: StoredDocument): Document
  {
    Document(IdText(d.id), d.content, d.metadata, d.embedding)
  }

  function CreatedAt(d: StoredDocument): real
  {
    d.createdAt as real
  }

  /** How many documents a cursor with `.limit(limit)` yields out of `n`:
      0 means no limit, a negative limit counts as its absolute value. */
  function CursorCount(n: nat, limit: int): (k: nat)
    ensures k <= n
    ensures limit == 0 ==> k == n
    ensures limit != 0 ==> k == (if n < limit || n < -limit then n else if limit < 0 then -limit else limit)
  {
    var m := if limit < 0 then -limit else limit;
    if limit == 0 || n < m then n else m
  }

  /** `find({}).sort({createdAt: -1}).limit(limit)`; documents created in the
      same millisecond stay in insertion order. */
  function Recent(documents: seq<StoredDocument>, limit: int): (r: seq<StoredDocument>)
    ensures |r| == CursorCount(|documents|, limit)
    ensures forall d :: d in r ==> d in documents
  {
    var sorted := SortDesc(documents, CreatedAt);
    SortDescPermutes(documents, CreatedAt);
    assert forall d :: d in sorted[..CursorCount(|documents|, limit)] ==> d in multiset(sorted);
    sorted[..CursorCount(|documents|, limit)]
  }

  /** The listing holds the right number of stored documents, newest first. */
  lemma RecentIsNewestFirst(documents: seq<StoredDocument>, limit: int)
    ensures |Recent(documents, limit)| == CursorCount(|documents|, limit)
    ensures SortedDesc(Recent(documents, limit), CreatedAt)
    ensures forall d :: d in Recent(documents, limit) ==> d in documents
    ensures forall d, i :: d in documents && d !in Recent(documents, limit) && 0 <= i < |Recent(documents, limit)| ==>
              d.createdAt <= Recent(documents, limit)[i].createdAt
  {
    var sorted := SortDesc(documents, CreatedAt);
    SortDescCorrect(documents, CreatedAt);
    var k := CursorCount(|documents|, limit);
    TakeOfSorted(sorted, k, CreatedAt);
    var recent := Recent(documents, limit);
    assert Take(sorted, k) == recent;
    forall d | d in recent ensures d in documents {
      assert d in multiset(sorted);
    }
    forall d, i | d in documents && d !in recent && 0 <= i < |recent|
      ensures d.createdAt <= recent[i].createdAt
    {
      assert d in multiset(sorted);
      assert CreatedAt(d) <= CreatedAt(recent[i]);
    }
  }

  /** A document created after every stored one is the first one listed. */
  lemma {:induction false} NewestListedFirst(documents: seq<StoredDocument>, d: StoredDocument)
    requires forall e :: e in documents ==> e.createdAt < d.createdAt
    ensures Recent(documents + [d], 1) == [d]
  {
    var all := documents + [d];
    var sorted := SortDesc(all, CreatedAt);
    SortDescCorrect(all, CreatedAt);
    assert d in multiset(sorted);
    var m :| 0 <= m < |sorted| && sorted[m] == d;
    assert CreatedAt(sorted[0]) >= CreatedAt(d);
    assert sorted[0] in multiset(all);
    assert sorted[0] !in documents;
    assert sorted[0] == d;
  }

  /** The documents collection. Ids are drawn from a counter, so they are
      distinct and increase with insertion. */
  class DocumentStore {
    var documents: seq<StoredDocument>
    var nextId: ObjectId

    ghost predicate Valid()
      reads this
    {
      && (forall i :: 0 <= i < |documents| ==> documents[i].id < nextId)
      && (forall i, j :: 0 <= i < j < |documents| ==> documents[i].id < documents[j].id)
    }

    constructor ()
      ensures Valid() && documents == []
    {
      documents := [];
      nextId := 0;
    }

    /** `addDocument`: embed the content, insert it with its metadata and
        creation time, and return the new id; an embedding failure inserts
        nothing and surfaces as the generic error. */
    method AddDocument(embed: Embedder, content: string, metadata: Option<Metadata>, now: int)
      returns (r: Result<string>)
      requires Valid()
      modifies this
      ensures Valid()
      ensures r.Ok? <==> embed(content).Some?
      ensures r.Ok? ==>
                && documents == old(documents) + [StoredDocument(old(nextId), content, metadata, embed(content), now)]
                && nextId == old(nextId) + 1
                && r.value == IdText(old(nextId))
      ensures r.Err? ==> documents == old(documents) && nextId == old(nextId) && r.message == AddFailed
    {
      var embedding := GetEmbedding(embed, content);
      if embedding.Err? {
        return Err(AddFailed);
      }
      var id := nextId;
      documents := documents + [StoredDocument(id, content, metadata, Some(embedding.value), now)];
      nextId := nextId + 1;
      r := Ok(IdText(id));
    }

    /** `getDocuments`: the shared view of the `limit` most recent documents. */
    method GetDocuments(limit: int := DefaultListLimit) returns (r: seq<Document>)
      ensures |r| == CursorCount(|documents|, limit)
      ensures forall i :: 0 <= i < |r| ==> r[i] == ToDocument(Recent(documents, limit)[i])
    {
      var recent := Recent(documents, limit);
      r := seq(|recent|, i requires 0 <= i < |recent| => ToDocument(recent[i]));
    }
  }
}
