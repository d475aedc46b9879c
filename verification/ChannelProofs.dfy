/** What capability negotiation guarantees, for every command and every target platform. */
module ChannelProofs {
  import opened Wrappers
  import opened PythonText
  import opened MarkdownText
  import opened ChannelNegotiation

  // ---------------------------------------------------------------- splitting a text

  function Concat(pieces: seq<string>): string {
    if pieces == [] then "" else pieces[0] + Concat(pieces[1..])
  }

  /** Nothing is lost, no piece is empty or too long, and every piece but the last is full. */
  lemma {:induction false} ChunksConserve(text: string, size: int)
    requires size >= 1
    ensures Concat(Chunks(text, size)) == text
    ensures forall i :: 0 <= i < |Chunks(text, size)| ==> 1 <= |Chunks(text, size)[i]| <= size
    ensures forall i :: 0 <= i < |Chunks(text, size)| - 1 ==> |Chunks(text, size)[i]| == size
  {
    if |text| > size {
      ChunksConserve(text[size..], size);
      assert Chunks(text, size)[1..] == Chunks(text[size..], size);
    }
  }

  /** The number of pieces is the length divided by the piece size, rounded up. */
  lemma {:induction false} ChunkCount(text: string, size: int, limit: nat)
    requires size >= 1
    ensures |Chunks(text, size)| <= limit <==> |text| <= size * limit
  {
    if |text| > size && limit > 0 {
      ChunkCount(text[size..], size, limit - 1);
      assert size * limit == size * (limit - 1) + size;
    } else if limit > 0 {
      assert size * limit >= size by {
        assert size * limit == size * (limit - 1) + size;
        assert size * (limit - 1) >= 0;
      }
    }
  }

  lemma ShortTextIsOneChunk(text: string, size: int)
    requires size >= 1
    ensures Chunks(text, size) == [text] <==> 1 <= |text| <= size
    ensures |Chunks(text, size)| == 0 <==> text == ""
  {
  }

  // ---------------------------------------------------------------- lists of blocks

  /** What the later steps rely on in a block that passed the checks. */
  ghost predicate Carriable(block: Block, caps: Capabilities) {
    && !Dispose(block.kind, caps).Refuse?
    && (if Textual(block.kind) then
          block.text.Some? && Strip(block.text.value) != "" && |block.text.value| <= caps.maxTextChars * caps.maxBlocks
        else
          block.attachmentId.Some? && block.sizeBytes.Some? && block.sizeBytes.value > 0)
  }

  lemma {:induction false} NoBlockError(blocks: seq<Block>, caps: Capabilities, i: nat)
    requires FirstError(blocks, caps).None? && i < |blocks|
    ensures BlockError(blocks[i], caps).None?
  {
    if i < |blocks| - 1 {
      NoBlockError(blocks[..|blocks| - 1], caps, i);
    }
  }

  ghost predicate AllCarriable(blocks: seq<Block>, caps: Capabilities) {
    forall i :: 0 <= i < |blocks| ==> Carriable(blocks[i], caps)
  }

  lemma {:induction false} AcceptedMessage(blocks: seq<Block>, caps: Capabilities)
    requires FirstError(blocks, caps).None?
    ensures AllCarriable(blocks, caps)
  {
    forall i | 0 <= i < |blocks| ensures Carriable(blocks[i], caps) {
      NoBlockError(blocks, caps, i);
    }
  }

  lemma {:induction false} AllBlocksFine(blocks: seq<Block>, caps: Capabilities)
    requires forall i :: 0 <= i < |blocks| ==> BlockError(blocks[i], caps).None?
    ensures FirstError(blocks, caps).None?
  {
    if blocks != [] {
      AllBlocksFine(blocks[..|blocks| - 1], caps);
    }
  }

  lemma {:induction false} NormalizedAt(blocks: seq<Block>, caps: Capabilities, passes: seq<Pass>, i: nat)
    requires i < |blocks|
    ensures |Normalized(blocks, caps, passes)| == |blocks|
    ensures Normalized(blocks, caps, passes)[i] == Rewrite(blocks[i], caps, passes)
  {
    if i < |blocks| - 1 {
      NormalizedAt(blocks[..|blocks| - 1], caps, passes, i);
    } else if |blocks| > 1 {
      NormalizedAt(blocks[..|blocks| - 1], caps, passes, 0);
    }
  }

  lemma {:induction false} ExpandedFrom(blocks: seq<Block>, size: int, b: Block)
    requires size >= 1 && b in Expanded(blocks, size)
    ensures exists i :: 0 <= i < |blocks| && b in Expand(blocks[i], size)
  {
    var front, last := blocks[..|blocks| - 1], blocks[|blocks| - 1];
    if b in Expand(last, size) {
      assert b in Expand(blocks[|blocks| - 1], size);
    } else {
      ExpandedFrom(front, size, b);
      var i :| 0 <= i < |front| && b in Expand(front[i], size);
      assert blocks[i] == front[i];
    }
  }

  lemma {:induction false} ExpandedUnsplit(blocks: seq<Block>, size: int)
    requires size >= 1
    requires forall i :: 0 <= i < |blocks| ==> Expand(blocks[i], size) == [blocks[i]]
    ensures Expanded(blocks, size) == blocks
  {
    if blocks != [] {
      ExpandedUnsplit(blocks[..|blocks| - 1], size);
    }
  }

  lemma {:induction false} ExpandedLonger(blocks: seq<Block>, size: int)
    requires size >= 1
    requires forall i :: 0 <= i < |blocks| ==> |Expand(blocks[i], size)| >= 1
    ensures |Expanded(blocks, size)| >= |blocks|
    ensures !Unsplit(blocks, size) ==> |Expanded(blocks, size)| > |blocks|
  {
    if blocks != [] {
      ExpandedLonger(blocks[..|blocks| - 1], size);
      UnsplitLast(blocks, size);
    }
  }

  // ---------------------------------------------------------------- reported degradations

  function FirstIndex(items: seq<Degradation>, d: Degradation): int {
    if items == [] then 0
    else if d in items[..|items| - 1] then FirstIndex(items[..|items| - 1], d)
    else |items| - 1
  }

  lemma {:induction false} FirstIndexBefore(items: seq<Degradation>, d: Degradation)
    requires d in items
    ensures 0 <= FirstIndex(items, d) < |items| && items[FirstIndex(items, d)] == d
  {
    if d in items[..|items| - 1] {
      FirstIndexBefore(items[..|items| - 1], d);
    }
  }

  /** The report has each degradation once, in the order in which it first occurred. */
  lemma {:induction false} DistinctReport(items: seq<Degradation>)
    ensures forall d :: d in Distinct(items) <==> d in items
    ensures Distinct(items) == [] <==> items == []
    ensures forall i, j :: 0 <= i < j < |Distinct(items)| ==>
              Distinct(items)[i] != Distinct(items)[j] &&
              FirstIndex(items, Distinct(items)[i]) < FirstIndex(items, Distinct(items)[j])
  {
    if items != [] {
      var front, last := items[..|items| - 1], items[|items| - 1];
      assert items == front + [last];
      DistinctReport(front);
      var r := Distinct(items);
      forall i, j | 0 <= i < j < |r|
        ensures r[i] != r[j] && FirstIndex(items, r[i]) < FirstIndex(items, r[j])
      {
        assert r[i] in Distinct(front);
        FirstIndexBefore(front, r[i]);
      }
    }
  }

  ghost predicate Untouched(blocks: seq<Block>, caps: Capabilities) {
    forall i :: 0 <= i < |blocks| ==> Dispose(blocks[i].kind, caps) == Keep
  }

  lemma UntouchedLast(blocks: seq<Block>, caps: Capabilities)
    requires blocks != []
    ensures Untouched(blocks, caps) <==>
            Untouched(blocks[..|blocks| - 1], caps) && Dispose(blocks[|blocks| - 1].kind, caps) == Keep
  {
  }

  lemma {:induction false} NoReasons(blocks: seq<Block>, caps: Capabilities)
    requires AllCarriable(blocks, caps)
    ensures Reasons(blocks, caps) == [] <==> Untouched(blocks, caps)
  {
    if blocks != [] {
      NoReasons(blocks[..|blocks| - 1], caps);
      assert Carriable(blocks[|blocks| - 1], caps);
      UntouchedLast(blocks, caps);
    }
  }

  ghost predicate Unsplit(blocks: seq<Block>, size: int)
    requires size >= 1
  {
    forall i :: 0 <= i < |blocks| ==> |Expand(blocks[i], size)| <= 1
  }

  lemma NoSplitReason(block: Block, size: int)
    requires size >= 1
    ensures SplitReason(block, size) == [] <==> |Expand(block, size)| <= 1
  {
  }

  lemma UnsplitLast(blocks: seq<Block>, size: int)
    requires size >= 1 && blocks != []
    ensures Unsplit(blocks, size) <==>
            Unsplit(blocks[..|blocks| - 1], size) && |Expand(blocks[|blocks| - 1], size)| <= 1
  {
  }

  lemma {:induction false} NoSplitReasons(blocks: seq<Block>, size: int)
    requires size >= 1
    ensures SplitReasons(blocks, size) == [] <==> Unsplit(blocks, size)
  {
    if blocks != [] {
      NoSplitReasons(blocks[..|blocks| - 1], size);
      NoSplitReason(blocks[|blocks| - 1], size);
      UnsplitLast(blocks, size);
    }
  }

  // ---------------------------------------------------------------- single blocks

  ghost predicate KindSupported(kind: Kind, caps: Capabilities) {
    match kind
    case Text => caps.text || !caps.markdown
    case Markdown => caps.markdown
    case Image => caps.images
    case File => caps.files
  }

  lemma RewriteSupported(block: Block, caps: Capabilities, passes: seq<Pass>)
    requires !Dispose(block.kind, caps).Refuse?
    ensures KindSupported(Rewrite(block, caps, passes).kind, caps)
  {
  }

  lemma KeptIsSupported(block: Block, caps: Capabilities)
    requires !Dispose(block.kind, caps).Refuse?
    ensures Dispose(block.kind, caps) == Keep <==> KindSupported(block.kind, caps)
  {
  }

  /** Only a downgraded Markdown block can vanish. */
  lemma GroupNotEmpty(block: Block, caps: Capabilities, passes: seq<Pass>)
    requires Carriable(block, caps) && caps.maxTextChars >= 1
    requires Dispose(block.kind, caps) != Downgrade
    ensures |Expand(Rewrite(block, caps, passes), caps.maxTextChars)| >= 1
  {
  }

  lemma ExpandKind(block: Block, size: int, b: Block)
    requires size >= 1 && b in Expand(block, size)
    ensures b.kind == block.kind
  {
  }

  /** Every block of the result is of a kind the target can carry. */
  lemma {:induction false} OutputSupported(
    blocks: seq<Block>, caps: Capabilities, passes: seq<Pass>, size: int, b: Block)
    requires size >= 1 && AllCarriable(blocks, caps)
    requires b in Expanded(Normalized(blocks, caps, passes), size)
    ensures KindSupported(b.kind, caps)
  {
    var normalized := Normalized(blocks, caps, passes);
    if blocks != [] { NormalizedAt(blocks, caps, passes, 0); }
    ExpandedFrom(normalized, size, b);
    var i :| 0 <= i < |normalized| && b in Expand(normalized[i], size);
    NormalizedAt(blocks, caps, passes, i);
    assert Carriable(blocks[i], caps);
    RewriteSupported(blocks[i], caps, passes);
    ExpandKind(normalized[i], size, b);
  }

  /** What a successful negotiation consists of. */
  lemma Success(command: Command, caps: Capabilities, passes: seq<Pass>, n: Negotiation)
    requires caps.maxTextChars >= 1 && Negotiate(command, caps, passes) == Ok(n)
    ensures AllCarriable(command.blocks, caps) && FirstError(command.blocks, caps).None?
    ensures n.blocks == Expanded(Normalized(command.blocks, caps, passes), caps.maxTextChars)
    ensures 1 <= |n.blocks| <= caps.maxBlocks
    ensures n.degradations == Distinct(
              TransportReasons(command, caps) + Reasons(command.blocks, caps) +
              SplitReasons(Normalized(command.blocks, caps, passes), caps.maxTextChars))
    ensures TransportReasons(command, caps) == [] <==>
            n.threadId == command.threadId && n.editMessageId == command.editMessageId && !n.buffered
    ensures command.proactive ==> caps.proactiveMessages
    ensures n.buffered == Buffered(command, caps)
    ensures n.threadId == (if caps.threads then command.threadId else None)
    ensures n.editMessageId == (if caps.messageEdit then command.editMessageId else None)
  {
    AcceptedMessage(command.blocks, caps);
  }
}
