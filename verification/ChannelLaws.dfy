/**
Further laws of capability negotiation: attachments are kept, stronger targets never do worse,
a result is its own negotiation, and the text limit is exact.
*/
module ChannelLaws {
  import opened Wrappers
  import opened PythonText
  import opened MarkdownText
  import opened ChannelNegotiation
  import opened ChannelProofs
  import opened ChannelTheorems

  // ---------------------------------------------------------------- what is let through

  /** The reported error is that of the first offending block. */
  lemma {:induction false} FirstErrorIsFirst(blocks: seq<Block>, caps: Capabilities) returns (i: nat)
    requires FirstError(blocks, caps).Some?
    ensures i < |blocks| && BlockError(blocks[i], caps) == FirstError(blocks, caps)
    ensures forall j :: 0 <= j < i ==> BlockError(blocks[j], caps).None?
  {
    var front := blocks[..|blocks| - 1];
    if FirstError(front, caps).Some? {
      i := FirstErrorIsFirst(front, caps);
      assert forall j :: 0 <= j <= i ==> front[j] == blocks[j];
    } else {
      i := |front|;
      forall j | 0 <= j < i ensures BlockError(blocks[j], caps).None? {
        NoBlockError(front, caps, j);
      }
    }
  }

  /** An attachment that is safe to hand to the target. */
  ghost predicate SafeAttachment(block: Block, caps: Capabilities) {
    block.attachmentId.Some? && block.contentType.Some? && block.fileName.Some? && block.sizeBytes.Some? &&
    block.sha256.Some? &&
    var contentType := Lower(Strip(block.contentType.value));
    (IsSafeImageType(contentType) || (block.kind == File && IsSafeDocumentType(contentType))) &&
    (caps.acceptedContentTypes == [] || contentType in caps.acceptedContentTypes) &&
    0 < block.sizeBytes.value <= caps.maxAttachmentBytes && IsDigest(Lower(block.sha256.value)) &&
    IsFileName(block.fileName.value)
  }

  lemma AcceptedIsSafe(block: Block, caps: Capabilities)
    requires !Textual(block.kind)
    ensures AttachmentError(block, caps.acceptedContentTypes, caps.maxAttachmentBytes).None? ==>
              SafeAttachment(block, caps)
  {
  }

  /** Every attachment of a result, converted or not, is safe for the target. */
  lemma {:induction false} OutputSafe(
    command: Command, caps: Capabilities, passes: seq<Pass>, n: Negotiation, b: Block)
    requires caps.maxTextChars >= 1 && Negotiate(command, caps, passes) == Ok(n)
    requires b in n.blocks && !Textual(b.kind)
    ensures SafeAttachment(b, caps)
  {
    Success(command, caps, passes, n);
    OutputValid(command.blocks, caps, passes, caps.maxTextChars, b);
    AcceptedIsSafe(b, caps);
  }

  // ---------------------------------------------------------------- attachments

  /** Text and Markdown blocks carry no attachment. */
  ghost predicate Shaped(block: Block) {
    Textual(block.kind) ==> block.attachmentId.None? && block.sizeBytes.None?
  }

  lemma {:induction false} AttachmentsAppend(a: seq<Block>, b: seq<Block>)
    ensures AttachmentIds(a + b) == AttachmentIds(a) + AttachmentIds(b)
    ensures TotalBytes(a + b) == TotalBytes(a) + TotalBytes(b)
  {
    if b == [] {
      assert a + b == a;
    } else {
      AttachmentsAppend(a, b[..|b| - 1]);
      assert (a + b)[..|a + b| - 1] == a + b[..|b| - 1];
    }
  }

  lemma {:induction false} NoAttachments(blocks: seq<Block>)
    requires forall i :: 0 <= i < |blocks| ==> blocks[i].attachmentId.None? && blocks[i].sizeBytes.None?
    ensures AttachmentIds(blocks) == [] && TotalBytes(blocks) == 0
  {
    if blocks != [] {
      NoAttachments(blocks[..|blocks| - 1]);
    }
  }

  lemma OneAttachment(block: Block)
    ensures AttachmentIds([block]) == if block.attachmentId.Some? then [block.attachmentId.value] else []
    ensures TotalBytes([block]) == if block.sizeBytes.Some? then block.sizeBytes.value else 0
  {
  }

  lemma MeaningAttachment(block: Block, caps: Capabilities, passes: seq<Pass>)
    requires Carriable(block, caps) && Shaped(block)
    ensures var meaning := Rewrite(block, caps, passes);
            if Textual(meaning.kind) || Dispose(block.kind, caps).Mention? then
              meaning.attachmentId.None? && meaning.sizeBytes.None? && Textual(meaning.kind)
            else
              meaning.attachmentId == block.attachmentId && meaning.sizeBytes == block.sizeBytes
    ensures Textual(block.kind) ==> Textual(Rewrite(block, caps, passes).kind)
    ensures !Textual(block.kind) && Textual(Rewrite(block, caps, passes).kind) ==> Dispose(block.kind, caps).Mention?
  {
  }

  lemma {:induction false} ExpandAttachments(meaning: Block, size: int)
    requires size >= 1 && (Textual(meaning.kind) ==> meaning.attachmentId.None? && meaning.sizeBytes.None?)
    ensures AttachmentIds(Expand(meaning, size)) == AttachmentIds([meaning])
    ensures TotalBytes(Expand(meaning, size)) == TotalBytes([meaning])
  {
    OneAttachment(meaning);
    if Textual(meaning.kind) {
      NoAttachments(Expand(meaning, size));
    }
  }

  /** One block's group keeps its attachment unless the block is only mentioned. */
  lemma {:induction false} GroupAttachments(block: Block, caps: Capabilities, passes: seq<Pass>, size: int)
    requires size >= 1 && Carriable(block, caps) && Shaped(block)
    ensures var group := Expand(Rewrite(block, caps, passes), size);
            if Dispose(block.kind, caps).Mention? then
              AttachmentIds(group) == [] && TotalBytes(group) == 0 &&
              |AttachmentIds([block])| == 1 && TotalBytes([block]) > 0
            else
              AttachmentIds(group) == AttachmentIds([block]) && TotalBytes(group) == TotalBytes([block])
  {
    var meaning := Rewrite(block, caps, passes);
    MeaningAttachment(block, caps, passes);
    OneAttachment(block);
    OneAttachment(meaning);
    ExpandAttachments(meaning, size);
  }

  ghost predicate Mentions(blocks: seq<Block>, caps: Capabilities) {
    exists i :: 0 <= i < |blocks| && Dispose(blocks[i].kind, caps).Mention?
  }

  lemma MentionsPush(front: seq<Block>, last: Block, caps: Capabilities)
    ensures Mentions(front + [last], caps) <==> Mentions(front, caps) || Dispose(last.kind, caps).Mention?
  {
    var blocks := front + [last];
    assert blocks[|front|] == last;
    if i :| 0 <= i < |front| && Dispose(front[i].kind, caps).Mention? {
      assert Dispose(blocks[i].kind, caps).Mention?;
    }
    if i :| 0 <= i < |blocks| && Dispose(blocks[i].kind, caps).Mention? {
      assert i < |front| ==> Dispose(front[i].kind, caps).Mention?;
    }
  }

  lemma OutputPush(front: seq<Block>, last: Block, caps: Capabilities, passes: seq<Pass>, size: int)
    requires size >= 1
    ensures Expanded(Normalized(front + [last], caps, passes), size) ==
            Expanded(Normalized(front, caps, passes), size) + Expand(Rewrite(last, caps, passes), size)
  {
    assert (front + [last])[..|front|] == front;
    var normalized := Normalized(front, caps, passes);
    assert (normalized + [Rewrite(last, caps, passes)])[..|normalized|] == normalized;
  }

  /** The attachments of `after` are those of `before`, or strictly fewer and smaller. */
  ghost predicate Balanced(before: seq<Block>, after: seq<Block>, lossy: bool) {
    if lossy then |AttachmentIds(after)| < |AttachmentIds(before)| && TotalBytes(after) < TotalBytes(before)
    else AttachmentIds(after) == AttachmentIds(before) && TotalBytes(after) == TotalBytes(before)
  }

  lemma {:induction false} BalancedAppend(
    before: seq<Block>, after: seq<Block>, lossy: bool, before': seq<Block>, after': seq<Block>, lossy': bool)
    requires Balanced(before, after, lossy) && Balanced(before', after', lossy')
    ensures Balanced(before + before', after + after', lossy || lossy')
  {
    AttachmentsAppend(before, before');
    AttachmentsAppend(after, after');
  }

  lemma GroupBalanced(block: Block, caps: Capabilities, passes: seq<Pass>, size: int)
    requires size >= 1 && Carriable(block, caps) && Shaped(block)
    ensures Balanced([block], Expand(Rewrite(block, caps, passes), size), Dispose(block.kind, caps).Mention?)
  {
    GroupAttachments(block, caps, passes, size);
  }

  lemma {:induction false} MessageAttachments(blocks: seq<Block>, caps: Capabilities, passes: seq<Pass>, size: int)
    requires size >= 1
    requires forall i :: 0 <= i < |blocks| ==> Carriable(blocks[i], caps) && Shaped(blocks[i])
    ensures Balanced(blocks, Expanded(Normalized(blocks, caps, passes), size), Mentions(blocks, caps))
  {
    if blocks != [] {
      var front, last := blocks[..|blocks| - 1], blocks[|blocks| - 1];
      assert blocks == front + [last];
      assert Carriable(last, caps) && Shaped(last);
      MessageAttachments(front, caps, passes, size);
      GroupBalanced(last, caps, passes, size);
      BalancedPush(blocks, front, last, caps, passes, size);
    }
  }

  lemma {:induction false} BalancedPush(
    blocks: seq<Block>, front: seq<Block>, last: Block, caps: Capabilities, passes: seq<Pass>, size: int)
    requires size >= 1 && Balanced(front, Expanded(Normalized(front, caps, passes), size), Mentions(front, caps))
    requires Balanced([last], Expand(Rewrite(last, caps, passes), size), Dispose(last.kind, caps).Mention?)
    requires blocks == front + [last]
    ensures Balanced(blocks, Expanded(Normalized(blocks, caps, passes), size), Mentions(blocks, caps))
  {
    MentionsPush(front, last, caps);
    OutputPush(front, last, caps, passes, size);
    BalancedAppend(front, Expanded(Normalized(front, caps, passes), size), Mentions(front, caps),
                   [last], Expand(Rewrite(last, caps, passes), size), Dispose(last.kind, caps).Mention?);
  }

  /**
  The audit summary before and after negotiation lists the same attachments and bytes exactly
  when no image or file had to be mentioned in text, and always when files are supported.
  */
  lemma {:induction false} AttachmentsKept(command: Command, caps: Capabilities, passes: seq<Pass>, n: Negotiation)
    requires caps.maxTextChars >= 1 && Negotiate(command, caps, passes) == Ok(n)
    requires forall i :: 0 <= i < |command.blocks| ==> Shaped(command.blocks[i])
    ensures AttachmentIds(n.blocks) == AttachmentIds(command.blocks) <==> !Mentions(command.blocks, caps)
    ensures TotalBytes(n.blocks) == TotalBytes(command.blocks) <==> !Mentions(command.blocks, caps)
    ensures caps.files ==> !Mentions(command.blocks, caps)
  {
    Success(command, caps, passes, n);
    MessageAttachments(command.blocks, caps, passes, caps.maxTextChars);
    assert Balanced(command.blocks, n.blocks, Mentions(command.blocks, caps));
  }

  // ---------------------------------------------------------------- monotonicity

  /** `b` can do everything `a` can, within the same limits and with the same Markdown support. */
  ghost predicate Weaker(a: Capabilities, b: Capabilities) {
    && (a.text ==> b.text) && (a.images ==> b.images) && (a.files ==> b.files) && (a.streaming ==> b.streaming)
    && (a.threads ==> b.threads) && (a.messageEdit ==> b.messageEdit)
    && (a.proactiveMessages ==> b.proactiveMessages) && a.markdown == b.markdown
    && a.maxTextChars == b.maxTextChars && a.maxBlocks == b.maxBlocks
    && a.maxAttachmentBytes == b.maxAttachmentBytes && a.acceptedContentTypes == b.acceptedContentTypes
  }

  lemma StrongerAccepts(block: Block, a: Capabilities, b: Capabilities)
    requires Weaker(a, b) && BlockError(block, a).None?
    ensures BlockError(block, b).None?
  {
  }

  lemma StrongerGroup(block: Block, a: Capabilities, b: Capabilities, passes: seq<Pass>)
    requires Weaker(a, b) && Carriable(block, a) && a.maxTextChars >= 1
    ensures var weak := |Expand(Rewrite(block, a, passes), a.maxTextChars)|;
            var strong := |Expand(Rewrite(block, b, passes), b.maxTextChars)|;
            strong <= weak && (weak >= 1 ==> strong >= 1)
  {
  }

  lemma {:induction false} StrongerMessage(blocks: seq<Block>, a: Capabilities, b: Capabilities, passes: seq<Pass>)
    requires Weaker(a, b) && AllCarriable(blocks, a) && a.maxTextChars >= 1
    ensures var weak := |Expanded(Normalized(blocks, a, passes), a.maxTextChars)|;
            var strong := |Expanded(Normalized(blocks, b, passes), b.maxTextChars)|;
            strong <= weak && (weak >= 1 ==> strong >= 1)
  {
    if blocks != [] {
      var front, last := blocks[..|blocks| - 1], blocks[|blocks| - 1];
      assert blocks == front + [last];
      assert Carriable(last, a);
      StrongerMessage(front, a, b, passes);
      StrongerGroup(last, a, b, passes);
      OutputPush(front, last, a, passes, a.maxTextChars);
      OutputPush(front, last, b, passes, b.maxTextChars);
    }
  }

  /** A target with more capabilities never refuses more and never needs more blocks. */
  lemma {:induction false} Monotonicity(
    command: Command, a: Capabilities, b: Capabilities, passes: seq<Pass>, n: Negotiation)
    requires Weaker(a, b) && a.maxTextChars >= 1 && Negotiate(command, a, passes) == Ok(n)
    ensures Negotiate(command, b, passes).Ok?
    ensures |Negotiate(command, b, passes).value.blocks| <= |n.blocks|
  {
    Success(command, a, passes, n);
    forall i | 0 <= i < |command.blocks| ensures BlockError(command.blocks[i], b).None? {
      NoBlockError(command.blocks, a, i);
      StrongerAccepts(command.blocks[i], a, b);
    }
    AllBlocksFine(command.blocks, b);
    StrongerMessage(command.blocks, a, b, passes);
  }

  // ---------------------------------------------------------------- fixpoint

  /** The command that sends a result again. */
  function Again(command: Command, n: Negotiation): Command {
    command.(blocks := n.blocks, threadId := n.threadId, editMessageId := n.editMessageId,
             requestStreaming := command.requestStreaming && !n.buffered)
  }

  lemma RewriteValid(block: Block, caps: Capabilities, passes: seq<Pass>)
    requires BlockError(block, caps).None? && !Textual(Rewrite(block, caps, passes).kind)
    ensures AttachmentError(Rewrite(block, caps, passes), caps.acceptedContentTypes, caps.maxAttachmentBytes).None?
  {
  }

  lemma ExpandBounds(block: Block, size: int, b: Block)
    requires size >= 1 && b in Expand(block, size)
    ensures b.kind == block.kind
    ensures if Textual(b.kind) then b.text.Some? && 1 <= |b.text.value| <= size else b == block
  {
    ChunksConserve(BodyText(block), size);
  }

  lemma {:induction false} OutputValid(
    blocks: seq<Block>, caps: Capabilities, passes: seq<Pass>, size: int, b: Block)
    requires size >= 1 && FirstError(blocks, caps).None?
    requires b in Expanded(Normalized(blocks, caps, passes), size)
    ensures if Textual(b.kind) then b.text.Some? && 1 <= |b.text.value| <= size
            else AttachmentError(b, caps.acceptedContentTypes, caps.maxAttachmentBytes).None?
  {
    var normalized := Normalized(blocks, caps, passes);
    if blocks != [] { NormalizedAt(blocks, caps, passes, 0); }
    ExpandedFrom(normalized, size, b);
    var i :| 0 <= i < |normalized| && b in Expand(normalized[i], size);
    NormalizedAt(blocks, caps, passes, i);
    ExpandBounds(normalized[i], size, b);
    if !Textual(b.kind) {
      NoBlockError(blocks, caps, i);
      RewriteValid(blocks[i], caps, passes);
    }
  }

  /** The result can be sent as it is: no blank piece, and plain text only where text is supported. */
  ghost predicate Resendable(blocks: seq<Block>, caps: Capabilities) {
    forall i :: 0 <= i < |blocks| ==>
      (Textual(blocks[i].kind) ==> blocks[i].text.Some? && Strip(blocks[i].text.value) != "") &&
      (blocks[i].kind == Text ==> caps.text)
  }

  ghost predicate SingleGroups(blocks: seq<Block>, caps: Capabilities) {
    forall i :: 0 <= i < |blocks| ==>
      BlockError(blocks[i], caps).None? && Dispose(blocks[i].kind, caps) == Keep &&
      (Textual(blocks[i].kind) ==> blocks[i].text.Some? && 1 <= |blocks[i].text.value| <= caps.maxTextChars)
  }

  lemma {:induction false} SingleGroupsFixed(blocks: seq<Block>, caps: Capabilities, passes: seq<Pass>)
    requires SingleGroups(blocks, caps) && caps.maxTextChars >= 1
    ensures FirstError(blocks, caps).None?
    ensures Expanded(Normalized(blocks, caps, passes), caps.maxTextChars) == blocks
  {
    AllBlocksFine(blocks, caps);
    UntouchedNormalized(blocks, caps, passes);
    forall i | 0 <= i < |blocks| ensures Expand(blocks[i], caps.maxTextChars) == [blocks[i]] {
      if Textual(blocks[i].kind) {
        ShortTextIsOneChunk(blocks[i].text.value, caps.maxTextChars);
        UnsplitBlock(blocks[i], caps.maxTextChars);
      }
    }
    ExpandedUnsplit(blocks, caps.maxTextChars);
  }

  lemma LimitCoversOne(size: int, limit: int)
    requires size >= 1
    ensures limit >= 1 ==> size <= size * limit
    ensures limit <= 0 ==> size * limit <= 0
  {
  }

  lemma OutputBlockFine(block: Block, caps: Capabilities)
    requires KindSupported(block.kind, caps) && (block.kind == Text ==> caps.text)
    requires caps.maxTextChars >= 1 && caps.maxBlocks >= 1
    requires if Textual(block.kind) then
               block.text.Some? && Strip(block.text.value) != "" && |block.text.value| <= caps.maxTextChars
             else AttachmentError(block, caps.acceptedContentTypes, caps.maxAttachmentBytes).None?
    ensures BlockError(block, caps).None? && Dispose(block.kind, caps) == Keep
  {
  }

  lemma {:induction false} ResendableFixed(command: Command, caps: Capabilities, passes: seq<Pass>, n: Negotiation)
    requires caps.maxTextChars >= 1 && Negotiate(command, caps, passes) == Ok(n)
    requires Resendable(n.blocks, caps)
    ensures FirstError(n.blocks, caps).None?
    ensures Expanded(Normalized(n.blocks, caps, passes), caps.maxTextChars) == n.blocks
  {
    Success(command, caps, passes, n);
    forall i | 0 <= i < |n.blocks|
      ensures BlockError(n.blocks[i], caps).None? && Dispose(n.blocks[i].kind, caps) == Keep &&
              (Textual(n.blocks[i].kind) ==>
                 n.blocks[i].text.Some? && 1 <= |n.blocks[i].text.value| <= caps.maxTextChars)
    {
      OutputSupported(command.blocks, caps, passes, caps.maxTextChars, n.blocks[i]);
      OutputValid(command.blocks, caps, passes, caps.maxTextChars, n.blocks[i]);
      OutputBlockFine(n.blocks[i], caps);
    }
    SingleGroupsFixed(n.blocks, caps, passes);
  }

  lemma {:induction false} ResentUnreported(command: Command, caps: Capabilities, passes: seq<Pass>, n: Negotiation)
    requires caps.maxTextChars >= 1 && Negotiate(command, caps, passes) == Ok(n)
    requires Resendable(n.blocks, caps)
    ensures Negotiate(Again(command, n), caps, passes) ==
            Ok(Negotiation(n.blocks, [], false, n.threadId, n.editMessageId))
  {
    Success(command, caps, passes, n);
    ResendableFixed(command, caps, passes, n);
    var again := Again(command, n);
    var m := Negotiate(again, caps, passes).value;
    Transparency(again, caps, passes, m);
  }

  lemma CarriableResends(blocks: seq<Block>, caps: Capabilities)
    requires AllCarriable(blocks, caps)
    ensures Resendable(blocks, caps)
  {
  }

  lemma {:induction false} AcceptedIsResendable(command: Command, caps: Capabilities, passes: seq<Pass>, n: Negotiation)
    requires caps.maxTextChars >= 1 && Negotiate(command, caps, passes) == Ok(n)
    ensures Resendable(command.blocks, caps)
  {
    Success(command, caps, passes, n);
    CarriableResends(command.blocks, caps);
  }

  /**
  Negotiation is a fixpoint: sending a result again gives it back unchanged and reports nothing,
  exactly when no piece is blank and plain text is not sent to a target without text.
  */
  lemma {:induction false} Fixpoint(command: Command, caps: Capabilities, passes: seq<Pass>, n: Negotiation)
    requires caps.maxTextChars >= 1 && Negotiate(command, caps, passes) == Ok(n)
    ensures Negotiate(Again(command, n), caps, passes) ==
            Ok(Negotiation(n.blocks, [], false, n.threadId, n.editMessageId))
            <==> Resendable(n.blocks, caps)
  {
    var same := Negotiation(n.blocks, [], false, n.threadId, n.editMessageId);
    if Resendable(n.blocks, caps) {
      ResentUnreported(command, caps, passes, n);
    } else if Negotiate(Again(command, n), caps, passes) == Ok(same) {
      AcceptedIsResendable(Again(command, n), caps, passes, same);
    }
  }

  /** With text or Markdown support, only a blank piece can spoil the fixpoint. */
  lemma {:induction false} FixpointForTextTargets(
    command: Command, caps: Capabilities, passes: seq<Pass>, n: Negotiation)
    requires caps.maxTextChars >= 1 && Negotiate(command, caps, passes) == Ok(n)
    requires caps.text || caps.markdown
    ensures Resendable(n.blocks, caps) <==>
            forall i :: 0 <= i < |n.blocks| && Textual(n.blocks[i].kind) ==> !Blank(BodyText(n.blocks[i]))
  {
    Success(command, caps, passes, n);
    forall i | 0 <= i < |n.blocks|
      ensures n.blocks[i].kind == Text ==> caps.text
      ensures Textual(n.blocks[i].kind) ==>
                n.blocks[i].text.Some? && (Strip(n.blocks[i].text.value) != "" <==> !Blank(BodyText(n.blocks[i])))
    {
      OutputSupported(command.blocks, caps, passes, caps.maxTextChars, n.blocks[i]);
      OutputValid(command.blocks, caps, passes, caps.maxTextChars, n.blocks[i]);
      StripBlank(BodyText(n.blocks[i]));
    }
  }

  // ---------------------------------------------------------------- the text limit is exact

  lemma SingleOutcome(block: Block, caps: Capabilities, passes: seq<Pass>)
    requires caps.maxTextChars >= 1
    ensures FirstError([block], caps) == BlockError(block, caps)
    ensures Expanded(Normalized([block], caps, passes), caps.maxTextChars) ==
            Expand(Rewrite(block, caps, passes), caps.maxTextChars)
  {
    assert [block][..0] == [];
    assert Normalized([block], caps, passes) == [Rewrite(block, caps, passes)];
    assert [Rewrite(block, caps, passes)][..0] == [];
  }

  lemma TextAccepted(block: Block, caps: Capabilities)
    requires Textual(block.kind)
    ensures BlockError(block, caps).None? <==>
            block.text.Some? && !Blank(block.text.value) &&
            |block.text.value| <= caps.maxTextChars * caps.maxBlocks && (block.kind == Text ==> caps.text)
  {
    if block.text.Some? {
      StripBlank(block.text.value);
    }
  }

  lemma SingleOk(command: Command, caps: Capabilities, passes: seq<Pass>, block: Block)
    requires caps.maxTextChars >= 1 && command.blocks == [block] && (command.proactive ==> caps.proactiveMessages)
    ensures Negotiate(command, caps, passes).Ok? <==>
            BlockError(block, caps).None? &&
            1 <= |Expand(Rewrite(block, caps, passes), caps.maxTextChars)| <= caps.maxBlocks
  {
    SingleOutcome(block, caps, passes);
  }

  /**
  One text or Markdown block goes through exactly when it is not blank, fits the advertised
  total, is of a carried kind, and does not vanish when its markup is removed.
  */
  lemma {:induction false} SingleTextExact(command: Command, caps: Capabilities, passes: seq<Pass>, block: Block)
    requires caps.maxTextChars >= 1 && command.blocks == [block] && Textual(block.kind)
    requires command.proactive ==> caps.proactiveMessages
    ensures Negotiate(command, caps, passes).Ok? <==>
            block.text.Some? && !Blank(block.text.value) &&
            |block.text.value| <= caps.maxTextChars * caps.maxBlocks &&
            (block.kind == Text ==> caps.text) &&
            (block.kind == Markdown && !caps.markdown ==> MarkdownToText(passes, block.text.value) != "")
  {
    SingleOk(command, caps, passes, block);
    TextAccepted(block, caps);
    if BlockError(block, caps).None? {
      AcceptedText(block, caps, passes);
    }
  }

  /** Of the accepted texts only downgraded Markdown can have nothing to say. */
  lemma AcceptedText(block: Block, caps: Capabilities, passes: seq<Pass>)
    requires caps.maxTextChars >= 1 && Textual(block.kind) && BlockError(block, caps).None?
    ensures block.text.Some? && |Expand(Rewrite(block, caps, passes), caps.maxTextChars)| <= caps.maxBlocks
    ensures |Expand(Rewrite(block, caps, passes), caps.maxTextChars)| == 0 <==>
            block.kind == Markdown && !caps.markdown && MarkdownToText(passes, block.text.value) == ""
  {
    SingleTextFits(block, caps, passes);
    assert block.text.value != "" by {
      StripBlank(block.text.value);
    }
  }

  lemma MeaningNotLonger(block: Block, caps: Capabilities, passes: seq<Pass>)
    requires Textual(block.kind) && block.text.Some? && !Dispose(block.kind, caps).Refuse?
    ensures Textual(Rewrite(block, caps, passes).kind)
    ensures |BodyText(Rewrite(block, caps, passes))| <= |block.text.value|
  {
    DowngradeNotLonger(passes, block.text.value);
  }

  lemma {:induction false} SingleTextFits(block: Block, caps: Capabilities, passes: seq<Pass>)
    requires caps.maxTextChars >= 1 && Textual(block.kind) && Carriable(block, caps)
    ensures |Expand(Rewrite(block, caps, passes), caps.maxTextChars)| <= caps.maxBlocks
    ensures |Expand(Rewrite(block, caps, passes), caps.maxTextChars)| == 0 <==>
            BodyText(Rewrite(block, caps, passes)) == ""
  {
    var text, size, limit := BodyText(Rewrite(block, caps, passes)), caps.maxTextChars, caps.maxBlocks;
    MeaningNotLonger(block, caps, passes);
    LimitCoversOne(size, limit);
    assert limit >= 1;
    ChunkCount(text, size, limit);
    ShortTextIsOneChunk(text, size);
  }

  // ---------------------------------------------------------------- on the failing side

  function Platform(text: bool, maxTextChars: int): Capabilities {
    Capabilities(text, false, false, false, true, true, true, true, maxTextChars, 2, 1, [])
  }

  function Saying(block: Block): Command {
    Command([block], None, false, false, None)
  }

  /** One block that is sent without any transport wish. */
  lemma {:induction false} SayingOutcome(block: Block, caps: Capabilities, passes: seq<Pass>)
    requires caps.maxTextChars >= 1 && BlockError(block, caps) == None
    requires 1 <= |Expand(Rewrite(block, caps, passes), caps.maxTextChars)| <= caps.maxBlocks
    ensures Negotiate(Saying(block), caps, passes) ==
            Ok(Negotiation(Expand(Rewrite(block, caps, passes), caps.maxTextChars),
                           Distinct(Reason(block, caps) + SplitReason(Rewrite(block, caps, passes), caps.maxTextChars)),
                           false, None, None))
  {
    SingleOutcome(block, caps, passes);
    assert [block][..0] == [];
    assert Reasons([block], caps) == Reason(block, caps);
    var meaning := [Rewrite(block, caps, passes)];
    assert meaning[..0] == [] && Normalized([block], caps, passes) == meaning;
    assert SplitReasons(meaning, caps.maxTextChars) == SplitReason(meaning[0], caps.maxTextChars);
    assert TransportReasons(Saying(block), caps) == [];
    assert [] + Reason(block, caps) == Reason(block, caps);
  }

  lemma DistinctOne(d: Degradation)
    ensures Distinct([d]) == [d]
  {
    assert [d][..0] == [];
  }

  lemma {:induction false} RefusedFirst(blocks: seq<Block>, caps: Capabilities, error: CapabilityError)
    requires blocks != [] && BlockError(blocks[0], caps) == Some(error)
    ensures FirstError(blocks, caps) == Some(error)
  {
    if |blocks| > 1 {
      RefusedFirst(blocks[..|blocks| - 1], caps, error);
    } else {
      assert blocks[..0] == [];
    }
  }

  lemma SpaceAndLetter()
    ensures Strip(" a") != "" && Strip(" ") == "" && Strip("a") == "a"
    ensures Chunks(" a", 1) == [" ", "a"] && Chunks("a", 10) == ["a"]
  {
    StripBlank(" a");
    StripBlank(" ");
    TrimmedIsFixed("a");
    assert !IsSpace(" a"[1]) && IsSpace(" "[0]);
    assert " a"[..1] == " " && " a"[1..] == "a";
  }

  /** A blank first piece: the result of a successful negotiation is refused when it is sent again. */
  lemma {:induction false} BlankPieceSpoilsFixpoint(passes: seq<Pass>)
    ensures var caps, command := Platform(true, 1), Saying(PlainText(" a"));
            var n := Negotiation([PlainText(" "), PlainText("a")], [LongTextSplit], false, None, None);
            Negotiate(command, caps, passes) == Ok(n) && !Resendable(n.blocks, caps) &&
            Negotiate(Again(command, n), caps, passes) == Err(EmptyText)
  {
    var caps, block, blocks := Platform(true, 1), PlainText(" a"), [PlainText(" "), PlainText("a")];
    SpaceAndLetter();
    assert Expand(block, 1) == blocks;
    SayingOutcome(block, caps, passes);
    assert [] + [LongTextSplit] == [LongTextSplit];
    DistinctOne(LongTextSplit);
    assert BlockError(blocks[0], caps) == Some(EmptyText);
    RefusedFirst(blocks, caps, EmptyText);
  }

  lemma DowngradedText(caps: Capabilities, passes: seq<Pass>, text: string)
    requires caps.maxTextChars >= 1 && |text| <= caps.maxTextChars && MarkdownToText(passes, text) != ""
    ensures var plain := MarkdownToText(passes, text);
            Strip(plain) != "" && |plain| <= caps.maxTextChars &&
            Expand(PlainText(plain), caps.maxTextChars) == [PlainText(plain)]
  {
    var plain := MarkdownToText(passes, text);
    DowngradeNotLonger(passes, text);
    StripTwice(ApplyPasses(passes, text));
    ShortTextIsOneChunk(plain, caps.maxTextChars);
    assert Chunks(plain, caps.maxTextChars) == [plain];
  }

  lemma StripTwice(s: string)
    ensures Strip(Strip(s)) == Strip(s)
  {
    var l := StripLeft(s);
    StripLeftSuffix(s);
    StripRightPrefix(l);
    var r := StripRight(l);
    assert r != "" ==> r[0] == l[0];
    TrimmedIsFixed(r);
  }

  function Marked(text: string): Block {
    Block(Markdown, Some(text), None, None, None, None, None, None)
  }

  lemma TextRefused(command: Command, caps: Capabilities, passes: seq<Pass>, text: string)
    requires !caps.text && caps.maxTextChars >= 1 && caps.maxBlocks >= 1
    requires Strip(text) != "" && |text| <= caps.maxTextChars
    requires !command.proactive && command.blocks == [PlainText(text)]
    ensures Negotiate(command, caps, passes) == Err(TextUnsupported) && !Resendable(command.blocks, caps)
  {
    LimitCoversOne(caps.maxTextChars, caps.maxBlocks);
    assert BlockError(PlainText(text), caps) == Some(TextUnsupported);
    RefusedFirst(command.blocks, caps, TextUnsupported);
    assert command.blocks[0].kind == Text;
  }

  lemma MarkedAccepted(caps: Capabilities, text: string)
    requires !caps.markdown && caps.maxTextChars >= 1 && caps.maxBlocks >= 1
    requires Strip(text) != "" && |text| <= caps.maxTextChars
    ensures BlockError(Marked(text), caps) == None && Reason(Marked(text), caps) == [MarkdownDowngraded]
  {
    LimitCoversOne(caps.maxTextChars, caps.maxBlocks);
  }

  lemma {:induction false} SentUnsplit(block: Block, plain: Block, caps: Capabilities, passes: seq<Pass>)
    requires caps.maxTextChars >= 1 && caps.maxBlocks >= 1 && BlockError(block, caps) == None
    requires Reason(block, caps) == [MarkdownDowngraded] && Rewrite(block, caps, passes) == plain
    requires Expand(plain, caps.maxTextChars) == [plain]
    ensures Negotiate(Saying(block), caps, passes) == Ok(Negotiation([plain], [MarkdownDowngraded], false, None, None))
  {
    SayingOutcome(block, caps, passes);
    NoSplitReason(plain, caps.maxTextChars);
    assert [MarkdownDowngraded] + [] == [MarkdownDowngraded];
    DistinctOne(MarkdownDowngraded);
  }

  lemma MarkdownSent(caps: Capabilities, passes: seq<Pass>, text: string)
    requires !caps.markdown && caps.maxTextChars >= 1 && caps.maxBlocks >= 1
    requires Strip(text) != "" && |text| <= caps.maxTextChars && MarkdownToText(passes, text) != ""
    ensures Negotiate(Saying(Marked(text)), caps, passes) ==
            Ok(Negotiation([PlainText(MarkdownToText(passes, text))], [MarkdownDowngraded], false, None, None))
  {
    MarkedAccepted(caps, text);
    DowngradedText(caps, passes, text);
    SentUnsplit(Marked(text), PlainText(MarkdownToText(passes, text)), caps, passes);
  }

  /**
  Markdown for a platform with neither Markdown nor text: whatever the passes leave goes out as
  plain text, and is refused when it is sent again.
  */
  lemma {:induction false} UncheckedDowngrade(caps: Capabilities, passes: seq<Pass>, text: string)
    requires !caps.text && !caps.markdown && caps.maxTextChars >= 1 && caps.maxBlocks >= 1
    requires !Blank(text) && |text| <= caps.maxTextChars && MarkdownToText(passes, text) != ""
    ensures var n := Negotiation([PlainText(MarkdownToText(passes, text))], [MarkdownDowngraded], false, None, None);
            Negotiate(Saying(Marked(text)), caps, passes) == Ok(n) && !Resendable(n.blocks, caps) &&
            Negotiate(Again(Saying(Marked(text)), n), caps, passes) == Err(TextUnsupported)
  {
    StripBlank(text);
    MarkdownSent(caps, passes, text);
    DowngradedText(caps, passes, text);
    var n := Negotiation([PlainText(MarkdownToText(passes, text))], [MarkdownDowngraded], false, None, None);
    TextRefused(Again(Saying(Marked(text)), n), caps, passes, MarkdownToText(passes, text));
  }

  /** A pass that takes the fences off an empty code block. */
  function Fences(s: string): seq<Match> {
    if |s| == 6 && s[0] == '`' then [Match(0, 6, 3, 3)] else []
  }

  lemma FencesIsPass()
    ensures IsPass(Fences)
  {
    forall s: string ensures Disjoint(Fences(s), 0, |s|) {
      assert Disjoint([], 6, |s|);
    }
  }

  lemma FencesGone(p: Pass, s: string)
    requires |s| == 6 && p(s) == [Match(0, 6, 3, 3)]
    ensures MarkdownToText([p], s) == ""
  {
    assert [p][..0] == [];
    assert ApplyPasses([], s) == s;
    assert Substitute(s, [], 6) == "";
    assert [Match(0, 6, 3, 3)][1..] == [];
    assert s[0..0] + s[3..3] + "" == "";
    assert Substitute(s, [Match(0, 6, 3, 3)], 0) == "";
  }

  /**
  Valid Markdown that is only markup vanishes on a platform without Markdown: when the passes
  leave nothing, and only then, the message is refused although every check was passed.
  */
  lemma {:induction false} VanishedMarkdown(caps: Capabilities, passes: seq<Pass>, text: string)
    requires !caps.markdown && caps.maxTextChars >= 1 && ValidateBlock(Marked(text), caps) == None
    ensures Negotiate(Saying(Marked(text)), caps, passes).Err? <==> MarkdownToText(passes, text) == ""
  {
    StripBlank(text);
    SingleTextExact(Saying(Marked(text)), caps, passes, Marked(text));
  }

  /** An empty code block is such Markdown. */
  lemma EmptyCodeBlock()
    ensures IsPass(Fences) && Fences("``````") == [Match(0, 6, 3, 3)] && !Blank("``````")
    ensures forall p: Pass :: p("``````") == Fences("``````") ==> MarkdownToText([p], "``````") == ""
  {
    FencesIsPass();
    assert !IsSpace("``````"[0]);
    forall p: Pass | p("``````") == Fences("``````") ensures MarkdownToText([p], "``````") == "" {
      FencesGone(p, "``````");
    }
  }
}
