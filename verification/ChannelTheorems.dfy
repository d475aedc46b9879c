/**
The main theorems of capability negotiation: degradation is transparent, content is conserved
within the limits, a stronger target never does worse, and the result needs no further rewriting.
*/
module ChannelTheorems {
  import opened Wrappers
  import opened PythonText
  import opened MarkdownText
  import opened ChannelNegotiation
  import opened ChannelProofs

  // ---------------------------------------------------------------- transparency

  lemma {:induction false} UntouchedNormalized(blocks: seq<Block>, caps: Capabilities, passes: seq<Pass>)
    requires Untouched(blocks, caps)
    ensures Normalized(blocks, caps, passes) == blocks
  {
    if blocks != [] {
      UntouchedLast(blocks, caps);
      UntouchedNormalized(blocks[..|blocks| - 1], caps, passes);
    }
  }

  lemma UnsplitBlock(block: Block, size: int)
    requires size >= 1 && (Textual(block.kind) ==> block.text.Some?) && |Expand(block, size)| == 1
    ensures Expand(block, size) == [block]
  {
    if Textual(block.kind) {
      ShortTextIsOneChunk(block.text.value, size);
      assert Chunks(block.text.value, size) == [block.text.value];
    }
  }

  lemma {:induction false} UnsplitMessage(blocks: seq<Block>, caps: Capabilities, passes: seq<Pass>)
    requires AllCarriable(blocks, caps) && Untouched(blocks, caps) && caps.maxTextChars >= 1
    ensures Unsplit(blocks, caps.maxTextChars) <==> Expanded(blocks, caps.maxTextChars) == blocks
  {
    var size := caps.maxTextChars;
    forall i | 0 <= i < |blocks|
      ensures |Expand(blocks[i], size)| >= 1 && (Textual(blocks[i].kind) ==> blocks[i].text.Some?)
    {
      assert Carriable(blocks[i], caps) && Dispose(blocks[i].kind, caps) == Keep;
      GroupNotEmpty(blocks[i], caps, passes);
    }
    ExpandedLonger(blocks, size);
    if Unsplit(blocks, size) {
      forall i | 0 <= i < |blocks| ensures Expand(blocks[i], size) == [blocks[i]] {
        UnsplitBlock(blocks[i], size);
      }
      ExpandedUnsplit(blocks, size);
    }
  }

  lemma {:induction false} SameBlocksUntouched(blocks: seq<Block>, caps: Capabilities, passes: seq<Pass>, size: int)
    requires size >= 1 && AllCarriable(blocks, caps)
    requires Expanded(Normalized(blocks, caps, passes), size) == blocks
    ensures Untouched(blocks, caps)
  {
    forall i | 0 <= i < |blocks| ensures Dispose(blocks[i].kind, caps) == Keep {
      OutputSupported(blocks, caps, passes, size, blocks[i]);
      assert Carriable(blocks[i], caps);
      KeptIsSupported(blocks[i], caps);
    }
  }

  lemma {:induction false} SameBlocksUnreported(blocks: seq<Block>, caps: Capabilities, passes: seq<Pass>)
    requires caps.maxTextChars >= 1 && AllCarriable(blocks, caps)
    ensures
      Expanded(Normalized(blocks, caps, passes), caps.maxTextChars) == blocks <==>
      Reasons(blocks, caps) == [] && SplitReasons(Normalized(blocks, caps, passes), caps.maxTextChars) == []
  {
    NoReasons(blocks, caps);
    NoSplitReasons(Normalized(blocks, caps, passes), caps.maxTextChars);
    if Expanded(Normalized(blocks, caps, passes), caps.maxTextChars) == blocks {
      SameBlocksUntouched(blocks, caps, passes, caps.maxTextChars);
    }
    if Untouched(blocks, caps) {
      UntouchedNormalized(blocks, caps, passes);
      UnsplitMessage(blocks, caps, passes);
    }
  }

  /**
  Degradation is transparent: a successful negotiation reports nothing exactly when blocks,
  thread and edit target are the requested ones and nothing is buffered.
  */
  lemma {:induction false} Transparency(command: Command, caps: Capabilities, passes: seq<Pass>, n: Negotiation)
    requires caps.maxTextChars >= 1 && Negotiate(command, caps, passes) == Ok(n)
    ensures n.degradations == [] <==>
            n.blocks == command.blocks && n.threadId == command.threadId &&
            n.editMessageId == command.editMessageId && !n.buffered
  {
    Success(command, caps, passes, n);
    SameBlocksUnreported(command.blocks, caps, passes);
    DistinctReport(TransportReasons(command, caps) + Reasons(command.blocks, caps) +
                   SplitReasons(Normalized(command.blocks, caps, passes), caps.maxTextChars));
  }

  // ---------------------------------------------------------------- conservation

  function Flatten(groups: seq<seq<Block>>): seq<Block> {
    if groups == [] then [] else Flatten(groups[..|groups| - 1]) + groups[|groups| - 1]
  }

  function Texts(group: seq<Block>): seq<string> {
    seq(|group|, i requires 0 <= i < |group| => BodyText(group[i]))
  }

  /** A text block that says `text` and refers to nothing. */
  ghost predicate Says(b: Block, text: string) {
    && b.kind == Text && b.text == Some(text) && b.attachmentId == None && b.contentType == None
    && b.fileName == None && b.sizeBytes == None && b.sha256 == None && b.altText == None
  }

  /** How a platform without files mentions an attachment: its label, and its alternative text if there is one. */
  ghost function Mentioned(block: Block): string {
    "[" + (if block.kind == Image then "图片" else "附件") + "：" +
    (if block.altText.Some? && !Blank(block.altText.value) then Strip(block.altText.value) else "已附加") + "]"
  }

  /** What a valid block is meant to say on the target: kept, stripped of markup, sent as a file, or mentioned. */
  ghost predicate Means(block: Block, caps: Capabilities, passes: seq<Pass>, meaning: Block) {
    if block.kind == Text || (block.kind == Markdown && caps.markdown) || (block.kind == Image && caps.images) ||
       (block.kind == File && caps.files) then meaning == block
    else if block.kind == Markdown then
      block.text.Some? && Says(meaning, MarkdownToText(passes, block.text.value))
    else if caps.files then meaning == block.(kind := File)
    else Says(meaning, Mentioned(block))
  }

  /** A group delivers its meaning: an attachment as it is, a text in bounded non-empty pieces. */
  ghost predicate Delivers(group: seq<Block>, meaning: Block, size: int) {
    if Textual(meaning.kind) then
      Concat(Texts(group)) == BodyText(meaning) &&
      (forall i :: 0 <= i < |group| ==>
         group[i] == meaning.(text := group[i].text) && group[i].text.Some? && 1 <= |group[i].text.value| <= size) &&
      (forall i :: 0 <= i < |group| - 1 ==> group[i].text.Some? && |group[i].text.value| == size)
    else
      group == [meaning]
  }

  lemma {:induction false} ExpandDelivers(block: Block, size: int)
    requires size >= 1
    ensures Delivers(Expand(block, size), block, size)
  {
    if Textual(block.kind) {
      var chunks := Chunks(BodyText(block), size);
      ChunksConserve(BodyText(block), size);
      assert Texts(Expand(block, size)) == chunks;
    }
  }

  function Groups(blocks: seq<Block>, size: int): seq<seq<Block>>
    requires size >= 1
  {
    if blocks == [] then []
    else Groups(blocks[..|blocks| - 1], size) + [Expand(blocks[|blocks| - 1], size)]
  }

  lemma FlattenPush(groups: seq<seq<Block>>, group: seq<Block>)
    ensures Flatten(groups + [group]) == Flatten(groups) + group
  {
    assert (groups + [group])[..|groups|] == groups;
  }

  lemma {:induction false} GroupsJoin(blocks: seq<Block>, size: int)
    requires size >= 1
    ensures Flatten(Groups(blocks, size)) == Expanded(blocks, size)
  {
    if blocks != [] {
      GroupsJoin(blocks[..|blocks| - 1], size);
      FlattenPush(Groups(blocks[..|blocks| - 1], size), Expand(blocks[|blocks| - 1], size));
    }
  }

  lemma {:induction false} GroupsAt(blocks: seq<Block>, size: int)
    requires size >= 1
    ensures |Groups(blocks, size)| == |blocks|
    ensures forall i :: 0 <= i < |blocks| ==> Groups(blocks, size)[i] == Expand(blocks[i], size)
  {
    if blocks != [] {
      GroupsAt(blocks[..|blocks| - 1], size);
    }
  }

  lemma GroupsFlatten(blocks: seq<Block>, size: int)
    requires size >= 1
    ensures Flatten(Groups(blocks, size)) == Expanded(blocks, size)
    ensures |Groups(blocks, size)| == |blocks|
    ensures forall i :: 0 <= i < |blocks| ==> Groups(blocks, size)[i] == Expand(blocks[i], size)
  {
    GroupsJoin(blocks, size);
    GroupsAt(blocks, size);
  }

  lemma RewriteMeans(block: Block, caps: Capabilities, passes: seq<Pass>)
    requires Carriable(block, caps)
    ensures Means(block, caps, passes, Rewrite(block, caps, passes))
  {
    if block.altText.Some? {
      StripBlank(block.altText.value);
    }
  }

  lemma {:induction false} MessageConserved(
    blocks: seq<Block>, caps: Capabilities, passes: seq<Pass>, size: int, i: nat)
    requires size >= 1 && AllCarriable(blocks, caps) && i < |blocks|
    ensures |Normalized(blocks, caps, passes)| == |Groups(Normalized(blocks, caps, passes), size)| == |blocks|
    ensures Means(blocks[i], caps, passes, Normalized(blocks, caps, passes)[i])
    ensures Delivers(Groups(Normalized(blocks, caps, passes), size)[i], Normalized(blocks, caps, passes)[i], size)
  {
    NormalizedAt(blocks, caps, passes, i);
    GroupsFlatten(Normalized(blocks, caps, passes), size);
    assert Carriable(blocks[i], caps);
    RewriteMeans(blocks[i], caps, passes);
    ExpandDelivers(Normalized(blocks, caps, passes)[i], size);
  }

  /**
  Conservation with bounds: the result is one group per requested block, in order, each group
  delivers what its block means, and the total is within the block limit.
  */
  lemma {:induction false} Conservation(command: Command, caps: Capabilities, passes: seq<Pass>, n: Negotiation)
    returns (groups: seq<seq<Block>>, meanings: seq<Block>)
    requires caps.maxTextChars >= 1 && Negotiate(command, caps, passes) == Ok(n)
    ensures |groups| == |meanings| == |command.blocks| && Flatten(groups) == n.blocks
    ensures forall i :: 0 <= i < |groups| ==>
              Means(command.blocks[i], caps, passes, meanings[i]) && Delivers(groups[i], meanings[i], caps.maxTextChars)
    ensures 1 <= |n.blocks| <= caps.maxBlocks
  {
    Success(command, caps, passes, n);
    meanings := Normalized(command.blocks, caps, passes);
    groups := Groups(meanings, caps.maxTextChars);
    GroupsFlatten(meanings, caps.maxTextChars);
    forall i | 0 <= i < |command.blocks|
      ensures |groups| == |meanings| == |command.blocks|
      ensures Means(command.blocks[i], caps, passes, meanings[i])
      ensures Delivers(groups[i], meanings[i], caps.maxTextChars)
    {
      MessageConserved(command.blocks, caps, passes, caps.maxTextChars, i);
    }
  }
}
