/** The documents HTTP routes: listing with a default limit, the single
    add with its content check, and the bulk add with its
    success/failure accounting. */
module DocumentsRoute {
  import opened Wrappers
  import opened Shared
  import opened OpenAI
  import opened Store

  const ContentRequired := "Content is required and must be a string"
  const DocumentsNotArray := "Documents must be an array"
  const AddDocumentFailed := "Failed to add document"

  /** What a documents route answers: 201 with the new id, 201 with the bulk
      counts, 400 with a validation message, or 500 with a generic message. */
  datatype Reply =
    | Created(id: string)
    | BulkReport(successful: nat, failed: nat)
    | BadRequest(error: string)
    | ServerError(error: string)

  /** One element of a bulk request body. */
  datatype BulkItem = BulkItem(content: string, metadata: Option<Metadata>)

  /** `parseInt(req.query.limit) || 50`, where `parsed` is what `parseInt`
      produced (`None` for NaN): NaN and 0 are falsy and fall back to 50. */
  function ListLimit(parsed: Option<int>): (limit: int)
    ensures limit != 0
    ensures parsed.None? ==> limit == DefaultListLimit
    ensures parsed.Some? ==> limit == (if parsed.value == 0 then DefaultListLimit else parsed.value)
  {
    match parsed
    case None => DefaultListLimit
    case Some(n) => if n == 0 then DefaultListLimit else n
  }

  /** `content` is present, is a string, and is not the empty string (the
      only falsy string); whitespace-only content passes. */
  predicate ValidContent(content: Option<Json>)
  {
    content.Some? && content.value.JString? && content.value.s != ""
  }

  /** GET /: the listing for the effective limit, which never means "all". */
  method ListDocuments(store: DocumentStore, parsed: Option<int>) returns (documents: seq<Document>)
    ensures |documents| == CursorCount(|store.documents|, ListLimit(parsed))
    ensures parsed.None? ==> |documents| == (if |store.documents| < 50 then |store.documents| else 50)
    ensures forall i :: 0 <= i < |documents| ==>
              documents[i] == ToDocument(Recent(store.documents, ListLimit(parsed))[i])
  {
    documents := store.GetDocuments(ListLimit(parsed));
  }

  /** POST /: invalid content is refused before anything is embedded or
      stored; otherwise the document is added, or the failure is reported. */
  method PostDocument(store: DocumentStore, embed: Embedder, content: Option<Json>, metadata: Option<Metadata>,
                      now: int) returns (reply: Reply)
    requires store.Valid()
    modifies store
    ensures store.Valid()
    ensures !ValidContent(content) ==>
              && reply == BadRequest(ContentRequired)
              && store.documents == old(store.documents) && store.nextId == old(store.nextId)
    ensures ValidContent(content) ==>
              var text := content.value.s;
              && (reply.Created? <==> embed(text).Some?)
              && (reply.Created? ==>
                    && reply.id == IdText(old(store.nextId))
                    && store.documents
                       == old(store.documents) + [StoredDocument(old(store.nextId), text, metadata, embed(text), now)])
              && (!reply.Created? ==>
                    reply == ServerError(AddDocumentFailed) && store.documents == old(store.documents))
  {
    if !ValidContent(content) {
      return BadRequest(ContentRequired);
    }
    var r := store.AddDocument(embed, content.value.s, metadata, now);
    if r.Ok? {
      reply := Created(r.value);
    } else {
      reply := ServerError(AddDocumentFailed);
    }
  }

  /** Whether each bulk item's add settles fulfilled: exactly when its own
      content embeds. */
  function Outcomes(embed: Embedder, items: seq<BulkItem>): (o: seq<bool>)
    ensures |o| == |items|
  {
    seq(|items|, i requires 0 <= i < |items| => embed(items[i].content).Some?)
  }

  /** `results.filter(r => r.status === "fulfilled").length`. */
  function Fulfilled(outcomes: seq<bool>): (n: nat)
    ensures n <= |outcomes|
  {
    if outcomes == [] then 0
    else Fulfilled(outcomes[..|outcomes| - 1]) + (if outcomes[|outcomes| - 1] then 1 else 0)
  }

  /** The documents a bulk add appends, in item order: each item whose
      embedding succeeds, with the next id and the time of its own attempt. */
  function Added(embed: Embedder, items: seq<BulkItem>, firstId: ObjectId, clock: nat -> int): (added: seq<StoredDocument>)
    ensures |added| <= |items|
  {
    if items == [] then []
    else
      var prev := Added(embed, items[..|items| - 1], firstId, clock);
      var item := items[|items| - 1];
      if embed(item.content).Some? then
        prev + [StoredDocument(firstId + |prev|, item.content, item.metadata, embed(item.content), clock(|items| - 1))]
      else prev
  }

  /** POST /bulk: a body that is not an array is refused and nothing is
      added; otherwise every item is attempted, none is content-checked,
      and the reply counts the fulfilled and the rejected attempts.
      `clock(i)` is the creation time of the i-th item's document. */
  method BulkAdd(store: DocumentStore, embed: Embedder, documents: Option<seq<BulkItem>>, clock: nat -> int)
    returns (reply: Reply)
    requires store.Valid()
    modifies store
    ensures store.Valid()
    ensures documents.None? ==>
              && reply == BadRequest(DocumentsNotArray)
              && store.documents == old(store.documents) && store.nextId == old(store.nextId)
    ensures documents.Some? ==>
              var items := documents.value;
              && reply == BulkReport(Fulfilled(Outcomes(embed, items)), |items| - Fulfilled(Outcomes(embed, items)))
              && reply.successful + reply.failed == |items|
              && store.documents == old(store.documents) + Added(embed, items, old(store.nextId), clock)
  {
    if documents.None? {
      return BadRequest(DocumentsNotArray);
    }
    var items := documents.value;
    var outcomes: seq<bool> := [];
    var i := 0;
    while i < |items|
      invariant 0 <= i <= |items|
      invariant store.Valid()
      invariant outcomes == Outcomes(embed, items[..i])
      invariant store.documents == old(store.documents) + Added(embed, items[..i], old(store.nextId), clock)
      invariant store.nextId == old(store.nextId) + |Added(embed, items[..i], old(store.nextId), clock)|
    {
      AddedStep(embed, items, i, old(store.nextId), clock);
      var r := store.AddDocument(embed, items[i].content, items[i].metadata, clock(i));
      outcomes := outcomes + [r.Ok?];
      i := i + 1;
    }
    assert items[..i] == items;
    var successful := Fulfilled(outcomes);
    reply := BulkReport(successful, |outcomes| - successful);
  }

  /** Attempting item i appends its document exactly when it embeds. */
  lemma AddedStep(embed: Embedder, items: seq<BulkItem>, i: nat, firstId: ObjectId, clock: nat -> int)
    requires i < |items|
    ensures var prev := Added(embed, items[..i], firstId, clock);
            Added(embed, items[..i + 1], firstId, clock)
            == if embed(items[i].content).Some? then
                 prev + [StoredDocument(firstId + |prev|, items[i].content, items[i].metadata,
                                        embed(items[i].content), clock(i))]
               else prev
    ensures Outcomes(embed, items[..i + 1]) == Outcomes(embed, items[..i]) + [embed(items[i].content).Some?]
  {
    assert items[..i + 1][..i] == items[..i];
  }

  /** `successful` is the number of fulfilled outcomes. */
  lemma {:induction false} FulfilledCountsSuccesses(outcomes: seq<bool>)
    ensures Fulfilled(outcomes) == |set i | 0 <= i < |outcomes| && outcomes[i]|
  {
    if outcomes != [] {
      var n := |outcomes| - 1;
      var front := outcomes[..n];
      FulfilledCountsSuccesses(front);
      var before := set i | 0 <= i < n && front[i];
      assert (set i | 0 <= i < |outcomes| && outcomes[i]) ==
             before + (if outcomes[n] then {n} else {});
    }
  }

  /** As many documents are added as attempts are fulfilled, with
      consecutive ids from the first free one. */
  lemma {:induction false} AddedCountsFulfilled(embed: Embedder, items: seq<BulkItem>, firstId: ObjectId,
                                                clock: nat -> int)
    ensures |Added(embed, items, firstId, clock)| == Fulfilled(Outcomes(embed, items))
    ensures forall j :: 0 <= j < |Added(embed, items, firstId, clock)| ==>
              Added(embed, items, firstId, clock)[j].id == firstId + j
    decreases |items|
  {
    if items != [] {
      var front := items[..|items| - 1];
      AddedCountsFulfilled(embed, front, firstId, clock);
      assert Outcomes(embed, items)[..|items| - 1] == Outcomes(embed, front);
    }
  }

  /** Adding more items after a prefix never removes or changes what the
      prefix added. */
  lemma {:induction false} AddedExtends(embed: Embedder, items: seq<BulkItem>, k: nat, firstId: ObjectId,
                                        clock: nat -> int)
    requires k <= |items|
    ensures Added(embed, items[..k], firstId, clock) <= Added(embed, items, firstId, clock)
    decreases |items|
  {
    if k < |items| {
      var front := items[..|items| - 1];
      assert front[..k] == items[..k];
      AddedExtends(embed, front, k, firstId, clock);
    } else {
      assert items[..k] == items;
    }
  }

  /** Item i is stored exactly when its own embedding succeeds, whatever
      happens to the other items: then its document, with its content,
      metadata and embedding, sits right after those of the earlier
      fulfilled items. */
  lemma EachItemStandsAlone(embed: Embedder, items: seq<BulkItem>, firstId: ObjectId, clock: nat -> int, i: nat)
    requires i < |items|
    ensures Outcomes(embed, items)[i] <==> embed(items[i].content).Some?
    ensures var k := Fulfilled(Outcomes(embed, items[..i]));
            var added := Added(embed, items, firstId, clock);
            embed(items[i].content).Some? ==>
              k < |added| &&
              added[k] == StoredDocument(firstId + k, items[i].content, items[i].metadata,
                                         embed(items[i].content), clock(i))
  {
    var upto := items[..i + 1];
    assert upto[..i] == items[..i];
    AddedCountsFulfilled(embed, items[..i], firstId, clock);
    AddedExtends(embed, items, i + 1, firstId, clock);
  }
}
