/** The documents tab's client-side input handling: the guards of the
    single add and the bulk-text parser that turns a text area into the
    body of a bulk request. */
module BulkParser {
  import opened Wrappers
  import opened Shared
  import opened Strings

  /** `JSON.parse`: `None` where it throws. */
  type Parser = string -> Option<Json>

  /** A document as the bulk request carries it. */
  datatype ParsedDocument = ParsedDocument(content: string, metadata: Option<Json>)

  /** What the bulk handler does with its input: return early, fail in the
      parser (no request is sent), or send these documents. */
  datatype BulkPlan = NothingToSubmit | ParseFailed | Submit(documents: seq<ParsedDocument>)

  /** What the single-add handler does: return early on blank content, fail
      on metadata that does not parse, or send the content as typed. */
  datatype AddPlan = SkipBlank | MetadataInvalid | Send(content: string, metadata: Option<Json>)

  const BlockSeparator := "\n\n"
  const LineSeparator := "\n"

  function Lines(block: string): (lines: seq<string>)
    ensures |lines| >= 1
  {
    Split(block, LineSeparator)
  }

  /** One block: the first line is the content; a non-empty second line is
      parsed as the metadata; later lines are ignored. */
  function ParseBlock(block: string, parse: Parser): (r: Option<ParsedDocument>)
    ensures r.Some? ==> '\n' !in r.value.content
  {
    SplitPiecesLackChar(block, '\n');
    var lines := Lines(block);
    if |lines| > 1 && lines[1] != "" then
      match parse(lines[1])
      case None => None
      case Some(m) => Some(ParsedDocument(lines[0], Some(m)))
    else Some(ParsedDocument(lines[0], None))
  }

  /** `.map(...)`: every block is parsed; one failure fails the whole map. */
  function ParseBlocks(blocks: seq<string>, parse: Parser): (r: Option<seq<ParsedDocument>>)
    ensures r.Some? ==> |r.value| == |blocks|
  {
    if blocks == [] then Some([])
    else
      match ParseBlock(blocks[0], parse)
      case None => None
      case Some(d) =>
        match ParseBlocks(blocks[1..], parse)
        case None => None
        case Some(ds) => Some([d] + ds)
  }

  /** `.filter(doc => doc.content.trim())`. */
  function KeepNonBlank(docs: seq<ParsedDocument>): seq<ParsedDocument>
  {
    if docs == [] then []
    else (if IsBlank(docs[0].content) then [] else [docs[0]]) + KeepNonBlank(docs[1..])
  }

  /** `handleBulkAdd` up to the request it would send. */
  function PlanBulkAdd(input: string, parse: Parser): (plan: BulkPlan)
    ensures plan == NothingToSubmit <==> IsBlank(input)
    ensures plan.Submit? ==>
              && |plan.documents| <= |Split(input, BlockSeparator)|
              && forall d :: d in plan.documents ==> !IsBlank(d.content) && '\n' !in d.content
  {
    if IsBlank(input) then NothingToSubmit
    else
      match ParseBlocks(Split(input, BlockSeparator), parse)
      case None => ParseFailed
      case Some(docs) =>
        KeepNonBlankMembers(docs);
        ParsedDocsLackLineBreaks(Split(input, BlockSeparator), parse);
        Submit(KeepNonBlank(docs))
  }

  lemma {:induction false} ParsedDocsLackLineBreaks(blocks: seq<string>, parse: Parser)
    ensures ParseBlocks(blocks, parse).Some? ==>
              forall d :: d in ParseBlocks(blocks, parse).value ==> '\n' !in d.content
  {
    if blocks != [] {
      ParsedDocsLackLineBreaks(blocks[1..], parse);
    }
  }

  /** `handleAddDocument` up to the request it would send. */
  function PlanAdd(content: string, metadataText: string, parse: Parser): (plan: AddPlan)
    ensures plan.SkipBlank? <==> IsBlank(content)
    ensures plan.MetadataInvalid? <==> !IsBlank(content) && metadataText != "" && parse(metadataText).None?
    ensures plan.Send? ==>
              && plan.content == content
              && (plan.metadata.Some? <==> metadataText != "")
              && (plan.metadata.Some? ==> plan.metadata == parse(metadataText))
  {
    if IsBlank(content) then SkipBlank
    else if metadataText == "" then Send(content, None)
    else
      match parse(metadataText)
      case None => MetadataInvalid
      case Some(m) => Send(content, Some(m))
  }

  /** A parsed block's content is its first line, so it holds no line
      break; metadata is present exactly when the second line is non-empty,
      and is that line's parse. */
  lemma ParsedBlockShape(block: string, parse: Parser)
    ensures ParseBlock(block, parse).None? <==>
              |Lines(block)| > 1 && Lines(block)[1] != "" && parse(Lines(block)[1]).None?
    ensures ParseBlock(block, parse).Some? ==>
              var d := ParseBlock(block, parse).value;
              && d.content == Lines(block)[0]
              && '\n' !in d.content
              && d.content <= block
              && (d.metadata.Some? <==> |Lines(block)| > 1 && Lines(block)[1] != "")
              && (d.metadata.Some? ==> d.metadata == parse(Lines(block)[1]))
  {
    SplitPiecesLackChar(block, '\n');
    SplitJoin(block, LineSeparator);
    var lines := Lines(block);
    if |lines| > 1 {
      JoinCons(lines[0], lines[1..], LineSeparator);
      assert [lines[0]] + lines[1..] == lines;
    }
  }

  /** Lines after the second do not affect a block that has a second line. */
  lemma ThirdLinesIgnored(block: string, rest: string, parse: Parser)
    requires |Lines(block)| > 1
    ensures ParseBlock(block + LineSeparator + rest, parse) == ParseBlock(block, parse)
  {
    SplitAround(block, '\n', rest);
    assert block + LineSeparator + rest == block + ['\n'] + rest;
    var lines := Lines(block + LineSeparator + rest);
    assert lines[0] == Lines(block)[0] && lines[1] == Lines(block)[1];
  }

  /** Parsing succeeds exactly when every block parses, and then yields
      each block's document in block order. */
  lemma {:induction false} ParseBlocksAllOrNothing(blocks: seq<string>, parse: Parser)
    ensures ParseBlocks(blocks, parse).None? <==> exists i :: 0 <= i < |blocks| && ParseBlock(blocks[i], parse).None?
    ensures ParseBlocks(blocks, parse).Some? ==>
              forall i :: 0 <= i < |blocks| ==> ParseBlock(blocks[i], parse) == Some(ParseBlocks(blocks, parse).value[i])
  {
    if blocks != [] {
      ParseBlocksAllOrNothing(blocks[1..], parse);
      if ParseBlock(blocks[0], parse).Some? && ParseBlocks(blocks[1..], parse).None? {
        var i :| 0 <= i < |blocks[1..]| && ParseBlock(blocks[1..][i], parse).None?;
        assert ParseBlock(blocks[i + 1], parse).None?;
      }
      if ParseBlocks(blocks, parse).Some? {
        forall i | 0 < i < |blocks|
          ensures ParseBlock(blocks[i], parse) == Some(ParseBlocks(blocks, parse).value[i])
        {
          assert blocks[i] == blocks[1..][i - 1];
        }
      }
      if ParseBlocks(blocks, parse).None? && ParseBlock(blocks[0], parse).Some? {
        var i :| 0 <= i < |blocks[1..]| && ParseBlock(blocks[1..][i], parse).None?;
        assert ParseBlock(blocks[i + 1], parse).None?;
      }
    }
  }

  lemma {:induction false} KeepNonBlankMembers(docs: seq<ParsedDocument>)
    ensures |KeepNonBlank(docs)| <= |docs|
    ensures forall d :: d in KeepNonBlank(docs) <==> d in docs && !IsBlank(d.content)
  {
    if docs != [] {
      KeepNonBlankMembers(docs[1..]);
      assert docs == [docs[0]] + docs[1..];
    }
  }

  lemma {:induction false} KeepNonBlankAppend(docs: seq<ParsedDocument>, more: seq<ParsedDocument>)
    ensures KeepNonBlank(docs + more) == KeepNonBlank(docs) + KeepNonBlank(more)
  {
    if docs != [] {
      KeepNonBlankAppend(docs[1..], more);
      assert (docs + more)[1..] == docs[1..] + more;
    } else {
      assert docs + more == more;
    }
  }

  /** The filter keeps exactly the documents with non-blank content, never
      more than it was given, and commutes with concatenation, so it keeps
      their order. */
  lemma KeepNonBlankFilters(docs: seq<ParsedDocument>, more: seq<ParsedDocument>)
    ensures |KeepNonBlank(docs)| <= |docs|
    ensures forall d :: d in KeepNonBlank(docs) <==> d in docs && !IsBlank(d.content)
    ensures KeepNonBlank(docs + more) == KeepNonBlank(docs) + KeepNonBlank(more)
  {
    KeepNonBlankMembers(docs);
    KeepNonBlankAppend(docs, more);
  }

  /** The bulk handler sends nothing for blank input; fails before sending
      exactly when some block has a non-empty second line that does not
      parse (blocks whose content is blank included, since parsing comes
      before filtering); and otherwise sends at most one document per
      block, each with non-blank single-line content parsed from some block. */
  lemma BulkPlanOutcomes(input: string, parse: Parser)
    ensures IsBlank(input) ==> PlanBulkAdd(input, parse) == NothingToSubmit
    ensures var blocks := Split(input, BlockSeparator);
            PlanBulkAdd(input, parse) == ParseFailed <==>
              && !IsBlank(input)
              && exists i :: 0 <= i < |blocks| &&
                   |Lines(blocks[i])| > 1 && Lines(blocks[i])[1] != "" && parse(Lines(blocks[i])[1]).None?
    ensures var blocks := Split(input, BlockSeparator);
            PlanBulkAdd(input, parse).Submit? ==>
              var docs := PlanBulkAdd(input, parse).documents;
              && |docs| <= |blocks|
              && forall d :: d in docs ==>
                   && !IsBlank(d.content)
                   && '\n' !in d.content
                   && exists i :: 0 <= i < |blocks| && ParseBlock(blocks[i], parse) == Some(d)
  {
    var blocks := Split(input, BlockSeparator);
    ParseBlocksAllOrNothing(blocks, parse);
    forall i | 0 <= i < |blocks| {
      ParsedBlockShape(blocks[i], parse);
    }
    var parsed := ParseBlocks(blocks, parse);
    if !IsBlank(input) && parsed.Some? {
      var all := parsed.value;
      KeepNonBlankFilters(all, []);
      forall d | d in KeepNonBlank(all)
        ensures && !IsBlank(d.content) && '\n' !in d.content
                && exists i :: 0 <= i < |blocks| && ParseBlock(blocks[i], parse) == Some(d)
      {
        var i :| 0 <= i < |all| && all[i] == d;
        assert ParseBlock(blocks[i], parse) == Some(d);
      }
    }
  }
}
