/**
What capability negotiation decides, condition by condition: which blocks are accepted and why
others are refused, what is reported, and when the whole message goes through.
*/
module ChannelExact {
  import opened Wrappers
  import opened PythonText
  import opened MarkdownText
  import opened ChannelNegotiation
  import opened ChannelProofs
  import opened ChannelTheorems
  import opened ChannelLaws

  // ---------------------------------------------------------------- attachments

  ghost predicate HexDigest(s: string) {
    |s| == 64 &&
    forall i :: 0 <= i < 64 ==> '0' <= s[i] <= '9' || 'a' <= s[i] <= 'f' || 'A' <= s[i] <= 'F'
  }

  ghost predicate PlainFileName(s: string) {
    !Blank(s) && forall i :: 0 <= i < |s| ==> s[i] != '/' && s[i] != '\\' && s[i] as int >= 32
  }

  ghost predicate ImageType(t: string) {
    t == "image/png" || t == "image/jpeg" || t == "image/webp" || t == "image/gif"
  }

  ghost predicate DocumentType(t: string) {
    t == "text/plain" || t == "text/markdown" || t == "text/csv" || t == "application/json" ||
    t == "application/pdf" || t == "application/vnd.openxmlformats-officedocument.wordprocessingml.document"
  }

  ghost predicate Complete(block: Block) {
    block.attachmentId.Some? && block.contentType.Some? && block.fileName.Some? && block.sizeBytes.Some? &&
    block.sha256.Some?
  }

  /** The metadata that an image or file block must have. */
  ghost predicate GoodAttachment(block: Block, caps: Capabilities) {
    && Complete(block)
    && (var t := Lower(Strip(block.contentType.value));
        && (ImageType(t) || (block.kind == File && DocumentType(t)))
        && (caps.acceptedContentTypes == [] || t in caps.acceptedContentTypes))
    && 0 < block.sizeBytes.value <= caps.maxAttachmentBytes
    && HexDigest(block.sha256.value) && PlainFileName(block.fileName.value)
  }

  lemma DigestExact(s: string)
    ensures IsDigest(Lower(s)) <==> HexDigest(s)
  {
    LowerExact(s);
    if HexDigest(s) {
      forall i | 0 <= i < 64 ensures '0' <= Lower(s)[i] <= '9' || 'a' <= Lower(s)[i] <= 'f' {
      }
    }
    if IsDigest(Lower(s)) {
      forall i | 0 <= i < 64 ensures '0' <= s[i] <= '9' || 'a' <= s[i] <= 'f' || 'A' <= s[i] <= 'F' {
        assert '0' <= Lower(s)[i] <= '9' || 'a' <= Lower(s)[i] <= 'f';
      }
    }
  }

  lemma FileNameExact(s: string)
    ensures IsFileName(s) <==> PlainFileName(s)
  {
    StripBlank(s);
    if IsFileName(s) {
      forall i | 0 <= i < |s| ensures s[i] != '/' && s[i] != '\\' {
        assert s[i] in s;
      }
    }
  }

  lemma TypesExact(t: string)
    ensures IsSafeImageType(t) <==> ImageType(t)
    ensures IsSafeDocumentType(t) <==> DocumentType(t)
  {
    assert SAFE_IMAGE_CONTENT_TYPES[0] == "image/png" && SAFE_IMAGE_CONTENT_TYPES[1] == "image/jpeg";
    assert SAFE_IMAGE_CONTENT_TYPES[2] == "image/webp" && SAFE_IMAGE_CONTENT_TYPES[3] == "image/gif";
    assert SAFE_DOCUMENT_CONTENT_TYPES[0] == "text/plain" && SAFE_DOCUMENT_CONTENT_TYPES[1] == "text/markdown";
    assert SAFE_DOCUMENT_CONTENT_TYPES[2] == "text/csv" && SAFE_DOCUMENT_CONTENT_TYPES[3] == "application/json";
    assert SAFE_DOCUMENT_CONTENT_TYPES[4] == "application/pdf";
    assert SAFE_DOCUMENT_CONTENT_TYPES[5] ==
           "application/vnd.openxmlformats-officedocument.wordprocessingml.document";
  }

  /** The first rule an image or file block breaks, in the order in which the rules are checked. */
  ghost function BrokenRule(block: Block, caps: Capabilities): Option<CapabilityError> {
    if !Complete(block) then Some(MissingMetadata) else
    var t := Lower(Strip(block.contentType.value));
    if !ImageType(t) && !DocumentType(t) then Some(UnsafeMediaType(t))
    else if block.kind == Image && !ImageType(t) then Some(ImageTypeRequired)
    else if caps.acceptedContentTypes != [] && t !in caps.acceptedContentTypes then Some(MediaTypeRejected(t))
    else if !(0 < block.sizeBytes.value <= caps.maxAttachmentBytes) then Some(AttachmentTooLarge)
    else if !HexDigest(block.sha256.value) then Some(InvalidDigest)
    else if !PlainFileName(block.fileName.value) then Some(InvalidFileName)
    else None
  }

  lemma AttachmentRefused(block: Block, caps: Capabilities)
    requires block.kind == Image || block.kind == File
    ensures ValidateBlock(block, caps) == BrokenRule(block, caps)
  {
    if Complete(block) {
      TypesExact(Lower(Strip(block.contentType.value)));
      DigestExact(block.sha256.value);
      FileNameExact(block.fileName.value);
    }
  }

  lemma BrokenRuleExact(block: Block, caps: Capabilities)
    requires block.kind == Image || block.kind == File
    ensures BrokenRule(block, caps) == None <==> GoodAttachment(block, caps)
  {
  }

  /** Every block that is refused is refused for the first rule it breaks, its metadata before its kind. */
  lemma BlockRefused(block: Block, caps: Capabilities)
    ensures BlockError(block, caps) ==
            match block.kind
            case Text =>
              if block.text == None || Blank(block.text.value) then Some(EmptyText)
              else if |block.text.value| > caps.maxTextChars * caps.maxBlocks then Some(TextTooLong)
              else if !caps.text then Some(TextUnsupported) else None
            case Markdown =>
              if block.text == None || Blank(block.text.value) then Some(EmptyText)
              else if |block.text.value| > caps.maxTextChars * caps.maxBlocks then Some(TextTooLong) else None
            case Image =>
              if !GoodAttachment(block, caps) then BrokenRule(block, caps)
              else if !caps.images && !caps.files && !caps.text then Some(ImageUnsupported) else None
            case File =>
              if !GoodAttachment(block, caps) then BrokenRule(block, caps)
              else if !caps.files && !caps.text then Some(FileUnsupported) else None
  {
    if block.kind == Image || block.kind == File {
      AttachmentRefused(block, caps);
      BrokenRuleExact(block, caps);
    } else if block.text.Some? {
      StripBlank(block.text.value);
    }
  }

  lemma MentionFits(text: string, size: int, limit: int)
    requires size >= 1 && text != ""
    ensures 1 <= |Chunks(text, size)|
    ensures |Chunks(text, size)| <= limit <==> |text| <= size * limit
  {
    ShortTextIsOneChunk(text, size);
    if limit >= 0 {
      ChunkCount(text, size, limit);
    } else {
      LimitCoversOne(size, limit);
    }
  }

  /**
  One image or file goes through exactly when its metadata is good and the platform carries it,
  takes it as a file, or can mention it, within its limits.
  */
  lemma {:induction false} SingleAttachmentExact(command: Command, caps: Capabilities, passes: seq<Pass>, block: Block)
    requires caps.maxTextChars >= 1 && command.blocks == [block] && (block.kind == Image || block.kind == File)
    requires command.proactive ==> caps.proactiveMessages
    ensures Negotiate(command, caps, passes).Ok? <==>
            GoodAttachment(block, caps) &&
            if (block.kind == Image && caps.images) || caps.files then caps.maxBlocks >= 1
            else caps.text && |Mentioned(block)| <= caps.maxTextChars * caps.maxBlocks
  {
    SingleOk(command, caps, passes, block);
    BlockRefused(block, caps);
    AttachmentRefused(block, caps);
    BrokenRuleExact(block, caps);
    if BlockError(block, caps) == None {
      AcceptedMessage([block], caps) by {
        SingleOutcome(block, caps, passes);
      }
      assert Carriable([block][0], caps);
      RewriteMeans(block, caps, passes);
      MentionFits(Mentioned(block), caps.maxTextChars, caps.maxBlocks);
    }
  }

  // ---------------------------------------------------------------- what is reported

  /** Losses are noted block by block, in order. */
  lemma ReasonsInOrder(front: seq<Block>, last: Block, caps: Capabilities)
    ensures Reasons(front + [last], caps) == Reasons(front, caps) + Reason(last, caps)
  {
    assert (front + [last])[..|front|] == front;
  }

  /** What happens to a block of a kind that is accepted. */
  lemma ReasonExact(block: Block, caps: Capabilities)
    ensures BlockError(block, caps) == None ==>
            Reason(block, caps) ==
            match block.kind
            case Text => []
            case Markdown => if caps.markdown then [] else [MarkdownDowngraded]
            case Image => if caps.images then [] else if caps.files then [ImageToFile] else [ImageToTextReference]
            case File => if caps.files then [] else [FileToTextReference]
  {
  }

  /** The text a block is delivered as, if it is delivered as text. */
  ghost function Spoken(block: Block, caps: Capabilities, passes: seq<Pass>): string {
    match block.kind
    case Text => if block.text.Some? then block.text.value else ""
    case Markdown =>
      if block.text.None? then ""
      else if caps.markdown then block.text.value else MarkdownToText(passes, block.text.value)
    case Image => if caps.images || caps.files then "" else Mentioned(block)
    case File => if caps.files then "" else Mentioned(block)
  }

  lemma SplitReasonExact(block: Block, caps: Capabilities, passes: seq<Pass>)
    requires Carriable(block, caps) && caps.maxTextChars >= 1
    ensures SplitReason(Rewrite(block, caps, passes), caps.maxTextChars) ==
            if |Spoken(block, caps, passes)| > caps.maxTextChars then [LongTextSplit] else []
  {
    var meaning := Rewrite(block, caps, passes);
    RewriteMeans(block, caps, passes);
    if Textual(meaning.kind) {
      assert BodyText(meaning) == Spoken(block, caps, passes);
      ChunkCount(BodyText(meaning), caps.maxTextChars, 1);
    }
  }

  ghost predicate HasKind(blocks: seq<Block>, kind: Kind) {
    exists i :: 0 <= i < |blocks| && blocks[i].kind == kind
  }

  ghost predicate HasLongText(blocks: seq<Block>, caps: Capabilities, passes: seq<Pass>) {
    exists i :: 0 <= i < |blocks| && |Spoken(blocks[i], caps, passes)| > caps.maxTextChars
  }

  /** Which losses one more block brings. */
  ghost predicate Brings(kind: Kind, caps: Capabilities, d: Degradation) {
    match d
    case MarkdownDowngraded => !caps.markdown && kind == Markdown
    case ImageToFile => !caps.images && caps.files && kind == Image
    case ImageToTextReference => !caps.images && !caps.files && kind == Image
    case FileToTextReference => !caps.files && kind == File
    case _ => false
  }

  lemma ReasonBrings(block: Block, caps: Capabilities, d: Degradation)
    requires BlockError(block, caps) == None
    ensures d in Reason(block, caps) <==> Brings(block.kind, caps, d)
  {
    ReasonExact(block, caps);
  }

  lemma {:induction false} ReasonMembers(blocks: seq<Block>, caps: Capabilities, d: Degradation)
    requires forall i :: 0 <= i < |blocks| ==> BlockError(blocks[i], caps) == None
    ensures d in Reasons(blocks, caps) <==> exists i :: 0 <= i < |blocks| && Brings(blocks[i].kind, caps, d)
  {
    if blocks != [] {
      var front, last := blocks[..|blocks| - 1], blocks[|blocks| - 1];
      ReasonMembers(front, caps, d);
      ReasonBrings(last, caps, d);
      assert blocks == front + [last];
      ReasonsInOrder(front, last, caps);
      if i :| 0 <= i < |front| && Brings(front[i].kind, caps, d) {
        assert Brings(blocks[i].kind, caps, d);
      }
    }
  }

  lemma BringsKind(blocks: seq<Block>, caps: Capabilities, d: Degradation)
    requires forall i :: 0 <= i < |blocks| ==> BlockError(blocks[i], caps) == None
    ensures d in Reasons(blocks, caps) <==>
            match d
            case MarkdownDowngraded => !caps.markdown && HasKind(blocks, Markdown)
            case ImageToFile => !caps.images && caps.files && HasKind(blocks, Image)
            case ImageToTextReference => !caps.images && !caps.files && HasKind(blocks, Image)
            case FileToTextReference => !caps.files && HasKind(blocks, File)
            case _ => false
  {
    ReasonMembers(blocks, caps, d);
  }

  lemma {:induction false} EveryBlockAccepted(
    command: Command, caps: Capabilities, passes: seq<Pass>, n: Negotiation)
    requires caps.maxTextChars >= 1 && Negotiate(command, caps, passes) == Ok(n)
    ensures forall i :: 0 <= i < |command.blocks| ==> BlockError(command.blocks[i], caps) == None
    ensures AllCarriable(command.blocks, caps)
  {
    Success(command, caps, passes, n);
    forall i | 0 <= i < |command.blocks| ensures BlockError(command.blocks[i], caps) == None {
      NoBlockError(command.blocks, caps, i);
    }
  }

  lemma Joined(a: seq<Degradation>, b: seq<Degradation>, c: seq<Degradation>, d: Degradation)
    ensures d in Distinct(a + b + c) <==> d in a || d in b || d in c
  {
    DistinctReport(a + b + c);
  }

  lemma HasLongPush(front: seq<Block>, last: Block, caps: Capabilities, passes: seq<Pass>)
    ensures HasLongText(front + [last], caps, passes) <==>
            HasLongText(front, caps, passes) || |Spoken(last, caps, passes)| > caps.maxTextChars
  {
    var all := front + [last];
    assert all[|front|] == last;
    if i :| 0 <= i < |front| && |Spoken(front[i], caps, passes)| > caps.maxTextChars {
      assert |Spoken(all[i], caps, passes)| > caps.maxTextChars;
    }
    if i :| 0 <= i < |all| && |Spoken(all[i], caps, passes)| > caps.maxTextChars {
      assert i < |front| ==> |Spoken(front[i], caps, passes)| > caps.maxTextChars;
    }
  }

  lemma SplitPush(front: seq<Block>, last: Block, caps: Capabilities, passes: seq<Pass>)
    requires caps.maxTextChars >= 1
    ensures SplitReasons(Normalized(front + [last], caps, passes), caps.maxTextChars) ==
            SplitReasons(Normalized(front, caps, passes), caps.maxTextChars) +
            SplitReason(Rewrite(last, caps, passes), caps.maxTextChars)
  {
    assert (front + [last])[..|front|] == front;
    var normalized := Normalized(front, caps, passes);
    assert (normalized + [Rewrite(last, caps, passes)])[..|normalized|] == normalized;
  }

  lemma {:induction false} SplitMembers(blocks: seq<Block>, caps: Capabilities, passes: seq<Pass>, d: Degradation)
    requires caps.maxTextChars >= 1 && AllCarriable(blocks, caps)
    ensures d in SplitReasons(Normalized(blocks, caps, passes), caps.maxTextChars) <==>
            d == LongTextSplit && HasLongText(blocks, caps, passes)
  {
    if blocks != [] {
      var front, last := blocks[..|blocks| - 1], blocks[|blocks| - 1];
      assert blocks == front + [last] && Carriable(blocks[|blocks| - 1], caps);
      SplitMembers(front, caps, passes, d);
      SplitPush(front, last, caps, passes);
      SplitReasonExact(last, caps, passes);
      HasLongPush(front, last, caps, passes);
    }
  }

  lemma TransportMembers(command: Command, caps: Capabilities, d: Degradation)
    ensures d in TransportReasons(command, caps) <==>
            match d
            case StreamingToBuffered => command.requestStreaming && !caps.streaming
            case ThreadToRootMessage => command.threadId.Some? && !caps.threads
            case EditToNewMessage => command.editMessageId.Some? && !caps.messageEdit
            case _ => false
  {
  }

  /** A successful negotiation reports every loss it causes, and no other. */
  lemma {:induction false} ReportExact(
    command: Command, caps: Capabilities, passes: seq<Pass>, n: Negotiation, d: Degradation)
    requires caps.maxTextChars >= 1 && Negotiate(command, caps, passes) == Ok(n)
    ensures d in n.degradations <==>
            match d
            case StreamingToBuffered => command.requestStreaming && !caps.streaming
            case ThreadToRootMessage => command.threadId.Some? && !caps.threads
            case EditToNewMessage => command.editMessageId.Some? && !caps.messageEdit
            case MarkdownDowngraded => !caps.markdown && HasKind(command.blocks, Markdown)
            case ImageToFile => !caps.images && caps.files && HasKind(command.blocks, Image)
            case ImageToTextReference => !caps.images && !caps.files && HasKind(command.blocks, Image)
            case FileToTextReference => !caps.files && HasKind(command.blocks, File)
            case LongTextSplit => HasLongText(command.blocks, caps, passes)
  {
    Success(command, caps, passes, n);
    EveryBlockAccepted(command, caps, passes, n);
    TransportMembers(command, caps, d);
    BringsKind(command.blocks, caps, d);
    SplitMembers(command.blocks, caps, passes, d);
    Joined(TransportReasons(command, caps), Reasons(command.blocks, caps),
           SplitReasons(Normalized(command.blocks, caps, passes), caps.maxTextChars), d);
  }

  lemma {:induction false} DistinctPrefix(a: seq<Degradation>, b: seq<Degradation>)
    requires forall i, j :: 0 <= i < j < |a| ==> a[i] != a[j]
    ensures a <= Distinct(a + b)
  {
    if b == [] {
      assert a + b == a;
      DistinctFixed(a);
    } else {
      DistinctPrefix(a, b[..|b| - 1]);
      assert (a + b)[..|a + b| - 1] == a + b[..|b| - 1];
    }
  }

  lemma {:induction false} DistinctFixed(a: seq<Degradation>)
    requires forall i, j :: 0 <= i < j < |a| ==> a[i] != a[j]
    ensures Distinct(a) == a
  {
    if a != [] {
      DistinctFixed(a[..|a| - 1]);
    }
  }

  /** The losses of the transport, in their order. */
  ghost function TransportLosses(command: Command, caps: Capabilities): seq<Degradation> {
    (if command.requestStreaming && !caps.streaming then [StreamingToBuffered] else []) +
    (if command.threadId.Some? && !caps.threads then [ThreadToRootMessage] else []) +
    (if command.editMessageId.Some? && !caps.messageEdit then [EditToNewMessage] else [])
  }

  lemma TransportDistinct(command: Command, caps: Capabilities)
    ensures TransportReasons(command, caps) == TransportLosses(command, caps)
    ensures var l := TransportLosses(command, caps); forall i, j :: 0 <= i < j < |l| ==> l[i] != l[j]
  {
  }

  lemma DistinctStarts(a: seq<Degradation>, b: seq<Degradation>, c: seq<Degradation>)
    requires forall i, j :: 0 <= i < j < |a| ==> a[i] != a[j]
    ensures a <= Distinct(a + b + c)
  {
    assert a + b + c == a + (b + c);
    DistinctPrefix(a, b + c);
  }

  lemma {:induction false} DistinctEnds(a: seq<Degradation>, b: seq<Degradation>, d: Degradation)
    requires b != [] && d !in a && forall i :: 0 <= i < |b| ==> b[i] == d
    ensures Distinct(a + b) == Distinct(a) + [d]
  {
    assert (a + b)[..|a + b| - 1] == a + b[..|b| - 1];
    if |b| == 1 {
      assert a + b[..0] == a;
      DistinctReport(a);
    } else {
      DistinctEnds(a, b[..|b| - 1], d);
    }
  }

  lemma {:induction false} OnlySplits(blocks: seq<Block>, size: int)
    requires size >= 1
    ensures forall i :: 0 <= i < |SplitReasons(blocks, size)| ==> SplitReasons(blocks, size)[i] == LongTextSplit
  {
    if blocks != [] {
      OnlySplits(blocks[..|blocks| - 1], size);
    }
  }

  lemma SplitEnds(first: seq<Degradation>, splits: seq<Degradation>)
    requires LongTextSplit !in first && forall i :: 0 <= i < |splits| ==> splits[i] == LongTextSplit
    ensures var r := Distinct(first + splits); LongTextSplit in r ==> r[|r| - 1] == LongTextSplit
  {
    if splits != [] {
      DistinctEnds(first, splits, LongTextSplit);
    } else {
      assert first + splits == first;
      DistinctReport(first);
    }
  }

  lemma NoSplitBefore(command: Command, caps: Capabilities)
    requires forall i :: 0 <= i < |command.blocks| ==> BlockError(command.blocks[i], caps) == None
    ensures LongTextSplit !in TransportReasons(command, caps) + Reasons(command.blocks, caps)
  {
    TransportMembers(command, caps, LongTextSplit);
    BringsKind(command.blocks, caps, LongTextSplit);
  }

  /** A split text is reported last. */
  lemma {:induction false} SplitReportedLast(command: Command, caps: Capabilities, passes: seq<Pass>, n: Negotiation)
    requires caps.maxTextChars >= 1 && Negotiate(command, caps, passes) == Ok(n)
    ensures LongTextSplit in n.degradations ==> n.degradations[|n.degradations| - 1] == LongTextSplit
  {
    EveryBlockAccepted(command, caps, passes, n);
    NoSplitBefore(command, caps);
    Success(command, caps, passes, n);
    var normalized := Normalized(command.blocks, caps, passes);
    OnlySplits(normalized, caps.maxTextChars);
    SplitEnds(TransportReasons(command, caps) + Reasons(command.blocks, caps),
              SplitReasons(normalized, caps.maxTextChars));
  }

  /** Losses of the transport come first: streaming, thread, edit; thread and edit survive where supported. */
  lemma {:induction false} TransportExact(command: Command, caps: Capabilities, passes: seq<Pass>, n: Negotiation)
    requires caps.maxTextChars >= 1 && Negotiate(command, caps, passes) == Ok(n)
    ensures n.buffered <==> command.requestStreaming && !caps.streaming
    ensures n.threadId == if caps.threads then command.threadId else None
    ensures n.editMessageId == if caps.messageEdit then command.editMessageId else None
    ensures TransportLosses(command, caps) <= n.degradations
  {
    Success(command, caps, passes, n);
    TransportDistinct(command, caps);
    DistinctStarts(TransportReasons(command, caps), Reasons(command.blocks, caps),
                   SplitReasons(Normalized(command.blocks, caps, passes), caps.maxTextChars));
  }

  // ---------------------------------------------------------------- when a message goes through

  /** How many blocks go out. */
  ghost function Pieces(command: Command, caps: Capabilities, passes: seq<Pass>): nat
    requires caps.maxTextChars >= 1
  {
    |Expanded(Normalized(command.blocks, caps, passes), caps.maxTextChars)|
  }

  /**
  Why a message is refused: the platform never starts a conversation, a block is refused, or nothing
  or too much is left.
  */
  lemma {:induction false} RefusedExactly(command: Command, caps: Capabilities, passes: seq<Pass>)
    requires caps.maxTextChars >= 1
    ensures Negotiate(command, caps, passes) == Err(ProactiveUnsupported) <==>
            command.proactive && !caps.proactiveMessages
    ensures Negotiate(command, caps, passes).Ok? <==>
            (command.proactive ==> caps.proactiveMessages) &&
            (forall i :: 0 <= i < |command.blocks| ==> BlockError(command.blocks[i], caps) == None) &&
            1 <= Pieces(command, caps, passes) <= caps.maxBlocks
    ensures (command.proactive ==> caps.proactiveMessages) && FirstError(command.blocks, caps) == None ==>
            (Negotiate(command, caps, passes) == Err(NothingToSend) <==> Pieces(command, caps, passes) == 0) &&
            (Negotiate(command, caps, passes) == Err(TooManyBlocks(caps.maxBlocks)) <==>
             Pieces(command, caps, passes) > 0 && Pieces(command, caps, passes) > caps.maxBlocks)
  {
    if FirstError(command.blocks, caps) == None {
      forall i | 0 <= i < |command.blocks| ensures BlockError(command.blocks[i], caps) == None {
        NoBlockError(command.blocks, caps, i);
      }
    } else {
      var i := FirstErrorIsFirst(command.blocks, caps);
      BlockRefused(command.blocks[i], caps);
    }
  }
}
