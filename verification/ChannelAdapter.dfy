/** The adapter's own loops, proved against the functions of `ChannelNegotiation`. */
module ChannelAdapter {
  import opened Wrappers
  import opened MarkdownText
  import opened ChannelNegotiation

  lemma ChunkFrom(text: string, index: nat, end: nat, size: int)
    requires size >= 1 && index < |text| && end == if index + size <= |text| then index + size else |text|
    ensures Chunks(text[index..], size) == [text[index..end]] + Chunks(text[end..], size)
  {
    var rest := text[index..];
    if |rest| > size {
      assert rest[..size] == text[index..end] && rest[size..] == text[end..];
    } else {
      assert rest == text[index..end] && text[end..] == "";
    }
  }

  method SplitText(text: string, size: int) returns (chunks: seq<string>)
    requires size >= 1
    ensures chunks == Chunks(text, size)
  {
    chunks := [];
    var index := 0;
    assert text[0..] == text;
    while index < |text|
      invariant 0 <= index
      invariant chunks + Chunks(if index <= |text| then text[index..] else "", size) == Chunks(text, size)
      decreases |text| - index
    {
      ghost var before := chunks;
      var end := if index + size <= |text| then index + size else |text|;
      ChunkFrom(text, index, end, size);
      chunks := chunks + [text[index..end]];
      assert before + ([text[index..end]] + Chunks(text[end..], size)) == chunks + Chunks(text[end..], size);
      index := index + size;
    }
  }

  method NegotiateCapabilities(command: Command, caps: Capabilities, passes: seq<Pass>)
    returns (r: Result<Negotiation, CapabilityError>)
    requires caps.maxTextChars >= 1
    ensures r == Negotiate(command, caps, passes)
  {
    if command.proactive && !caps.proactiveMessages {
      return Err(ProactiveUnsupported);
    }
    var degradations: seq<Degradation> := [];
    var buffered := command.requestStreaming && !caps.streaming;
    if buffered {
      degradations := degradations + [StreamingToBuffered];
    }
    var threadId := command.threadId;
    if threadId.Some? && !caps.threads {
      threadId := None;
      degradations := degradations + [ThreadToRootMessage];
    }
    var editMessageId := command.editMessageId;
    if editMessageId.Some? && !caps.messageEdit {
      editMessageId := None;
      degradations := degradations + [EditToNewMessage];
    }
    ghost var transport := TransportReasons(command, caps);
    assert degradations == transport;

    var normalized: seq<Block>;
    var error: Option<CapabilityError>;
    var reasons: seq<Degradation>;
    error, normalized, reasons := NormalizeBlocks(command.blocks, caps, passes);
    if error.Some? {
      return Err(error.value);
    }
    degradations := degradations + reasons;
    var expanded: seq<Block>;
    expanded, degradations := ExpandBlocks(normalized, caps.maxTextChars, degradations);
    if |expanded| == 0 {
      return Err(NothingToSend);
    }
    if |expanded| > caps.maxBlocks {
      return Err(TooManyBlocks(caps.maxBlocks));
    }
    return Ok(Negotiation(expanded, Distinct(degradations), buffered, threadId, editMessageId));
  }

  /** One round of the first loop. */
  method RewriteBlock(block: Block, caps: Capabilities, passes: seq<Pass>)
    returns (error: Option<CapabilityError>, rewritten: Block, reason: seq<Degradation>)
    ensures error == BlockError(block, caps)
    ensures error.None? ==> rewritten == Rewrite(block, caps, passes) && reason == Reason(block, caps)
  {
    rewritten, reason := block, [];
    error := ValidateBlock(block, caps);
    if error.Some? {
      return;
    }
    if block.kind == Markdown && !caps.markdown {
      var text := if block.text.Some? then block.text.value else "";
      rewritten, reason := PlainText(MarkdownToText(passes, text)), [MarkdownDowngraded];
    } else if block.kind == Image && !caps.images {
      if caps.files {
        rewritten, reason := block.(kind := File), [ImageToFile];
      } else if caps.text {
        rewritten, reason := AttachmentFallback(block, "图片"), [ImageToTextReference];
      } else {
        error := Some(ImageUnsupported);
      }
    } else if block.kind == File && !caps.files {
      if caps.text {
        rewritten, reason := AttachmentFallback(block, "附件"), [FileToTextReference];
      } else {
        error := Some(FileUnsupported);
      }
    } else if block.kind == Text && !caps.text {
      error := Some(TextUnsupported);
    }
  }

  /** The first loop: validate every block and rewrite it for the target. */
  method NormalizeBlocks(blocks: seq<Block>, caps: Capabilities, passes: seq<Pass>)
    returns (error: Option<CapabilityError>, normalized: seq<Block>, degradations: seq<Degradation>)
    ensures error == FirstError(blocks, caps)
    ensures error.None? ==> normalized == Normalized(blocks, caps, passes)
    ensures error.None? ==> degradations == Reasons(blocks, caps)
  {
    normalized, degradations := [], [];
    for n := 0 to |blocks|
      invariant FirstError(blocks[..n], caps).None?
      invariant normalized == Normalized(blocks[..n], caps, passes)
      invariant degradations == Reasons(blocks[..n], caps)
    {
      FirstErrorRound(blocks, n, caps);
      ReasonsRound(blocks, n, caps);
      NormalizedRound(blocks, n, caps, passes);
      var rewritten: Block;
      var reason: seq<Degradation>;
      error, rewritten, reason := RewriteBlock(blocks[n], caps, passes);
      if error.Some? {
        FirstErrorStops(blocks, n + 1, caps);
        return;
      }
      normalized := normalized + [rewritten];
      degradations := degradations + reason;
    }
    assert blocks[..|blocks|] == blocks;
    error := None;
  }

  lemma FirstErrorRound(blocks: seq<Block>, n: nat, caps: Capabilities)
    requires n < |blocks|
    ensures FirstError(blocks[..n + 1], caps) ==
            if FirstError(blocks[..n], caps).Some? then FirstError(blocks[..n], caps) else BlockError(blocks[n], caps)
  {
    assert blocks[..n + 1][..n] == blocks[..n];
  }

  lemma ReasonsRound(blocks: seq<Block>, n: nat, caps: Capabilities)
    requires n < |blocks|
    ensures Reasons(blocks[..n + 1], caps) == Reasons(blocks[..n], caps) + Reason(blocks[n], caps)
  {
    assert blocks[..n + 1][..n] == blocks[..n];
  }

  lemma NormalizedRound(blocks: seq<Block>, n: nat, caps: Capabilities, passes: seq<Pass>)
    requires n < |blocks|
    ensures Normalized(blocks[..n + 1], caps, passes) ==
            Normalized(blocks[..n], caps, passes) + [Rewrite(blocks[n], caps, passes)]
  {
    assert blocks[..n + 1][..n] == blocks[..n];
  }

  lemma {:induction false} FirstErrorStops(blocks: seq<Block>, n: nat, caps: Capabilities)
    requires n <= |blocks| && FirstError(blocks[..n], caps).Some?
    ensures FirstError(blocks, caps) == FirstError(blocks[..n], caps)
  {
    if n == |blocks| {
      assert blocks[..n] == blocks;
    } else {
      assert blocks[..|blocks| - 1][..n] == blocks[..n];
      FirstErrorStops(blocks[..|blocks| - 1], n, caps);
    }
  }

  lemma ExpandedTo(blocks: seq<Block>, n: nat, size: int)
    requires n < |blocks| && size >= 1
    ensures Expanded(blocks[..n + 1], size) == Expanded(blocks[..n], size) + Expand(blocks[n], size)
    ensures SplitReasons(blocks[..n + 1], size) == SplitReasons(blocks[..n], size) + SplitReason(blocks[n], size)
  {
    assert blocks[..n + 1][..n] == blocks[..n];
  }

  lemma Reassociate(a: seq<Degradation>, b: seq<Degradation>, c: seq<Degradation>)
    ensures a + b + c == a + (b + c)
  {
  }

  /** The second loop: split long texts. */
  method ExpandBlocks(normalized: seq<Block>, size: int, reported: seq<Degradation>)
    returns (expanded: seq<Block>, degradations: seq<Degradation>)
    requires size >= 1
    ensures expanded == Expanded(normalized, size)
    ensures degradations == reported + SplitReasons(normalized, size)
  {
    expanded, degradations := [], reported;
    for n := 0 to |normalized|
      invariant expanded == Expanded(normalized[..n], size)
      invariant degradations == reported + SplitReasons(normalized[..n], size)
    {
      var block := normalized[n];
      ExpandedTo(normalized, n, size);
      ghost var before := degradations;
      if block.kind == Text || block.kind == Markdown {
        var text := if block.text.Some? then block.text.value else "";
        var chunks := SplitText(text, size);
        if |chunks| > 1 {
          degradations := degradations + [LongTextSplit];
        }
        expanded := expanded + WithTexts(block, chunks);
      } else {
        expanded := expanded + [block];
      }
      assert degradations == before + SplitReason(block, size);
      Reassociate(reported, SplitReasons(normalized[..n], size), SplitReason(block, size));
    }
    assert normalized[..|normalized|] == normalized;
  }
}
