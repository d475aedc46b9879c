/**
Capability negotiation: a delivery command is validated and rewritten for what the target
platform supports, and every degradation is reported.  This module holds the data model and the
result as a function of the command; `ChannelAdapter` computes it with the adapter's loops.
*/
module ChannelNegotiation {
  import opened Wrappers
  import opened PythonText
  import opened MarkdownText

  datatype Kind = Text | Markdown | Image | File

  datatype Block = Block(
    kind: Kind, text: Option<string>, attachmentId: Option<string>, contentType: Option<string>,
    fileName: Option<string>, sizeBytes: Option<int>, sha256: Option<string>, altText: Option<string>)

  datatype Capabilities = Capabilities(
    text: bool, markdown: bool, images: bool, files: bool, streaming: bool, threads: bool, messageEdit: bool,
    proactiveMessages: bool, maxTextChars: int, maxBlocks: int, maxAttachmentBytes: int,
    acceptedContentTypes: seq<string>)

  datatype Command = Command(
    blocks: seq<Block>, threadId: Option<string>, proactive: bool, requestStreaming: bool,
    editMessageId: Option<string>)

  datatype Degradation =
    | StreamingToBuffered | ThreadToRootMessage | EditToNewMessage
    | MarkdownDowngraded | ImageToFile | ImageToTextReference | FileToTextReference | LongTextSplit

  datatype Negotiation = Negotiation(
    blocks: seq<Block>, degradations: seq<Degradation>, buffered: bool, threadId: Option<string>,
    editMessageId: Option<string>)

  datatype CapabilityError =
    | ProactiveUnsupported | EmptyText | TextTooLong | MissingMetadata | UnsafeMediaType(name: string)
    | ImageTypeRequired | MediaTypeRejected(name: string) | AttachmentTooLarge | InvalidDigest | InvalidFileName
    | ImageUnsupported | FileUnsupported | TextUnsupported | NothingToSend | TooManyBlocks(limit: int)

  const SAFE_IMAGE_CONTENT_TYPES := ["image/png", "image/jpeg", "image/webp", "image/gif"]
  const SAFE_DOCUMENT_CONTENT_TYPES := [
    "text/plain", "text/markdown", "text/csv", "application/json", "application/pdf",
    "application/vnd.openxmlformats-officedocument.wordprocessingml.document"]

  function PlainText(text: string): Block {
    Block(Text, Some(text), None, None, None, None, None, None)
  }

  predicate Textual(kind: Kind) {
    kind == Text || kind == Markdown
  }

  // ---------------------------------------------------------------- validation

  predicate IsDigest(s: string) {
    |s| == 64 && forall i :: 0 <= i < |s| ==> '0' <= s[i] <= '9' || 'a' <= s[i] <= 'f'
  }

  predicate IsFileName(s: string) {
    Strip(s) != "" && '/' !in s && '\\' !in s && forall i :: 0 <= i < |s| ==> s[i] as int >= 32
  }

  predicate IsSafeImageType(contentType: string) {
    contentType in SAFE_IMAGE_CONTENT_TYPES
  }

  predicate IsSafeDocumentType(contentType: string) {
    contentType in SAFE_DOCUMENT_CONTENT_TYPES
  }

  function MediaTypeError(contentType: string, image: bool, accepted: seq<string>): Option<CapabilityError> {
    if !IsSafeImageType(contentType) && !IsSafeDocumentType(contentType) then Some(UnsafeMediaType(contentType))
    else if image && !IsSafeImageType(contentType) then Some(ImageTypeRequired)
    else if accepted != [] && contentType !in accepted then Some(MediaTypeRejected(contentType))
    else None
  }

  function MetadataError(sizeBytes: int, maxBytes: int, sha256: string, fileName: string): Option<CapabilityError> {
    if sizeBytes <= 0 || sizeBytes > maxBytes then Some(AttachmentTooLarge)
    else if !IsDigest(Lower(sha256)) then Some(InvalidDigest)
    else if !IsFileName(fileName) then Some(InvalidFileName)
    else None
  }

  function AttachmentError(block: Block, accepted: seq<string>, maxBytes: int): Option<CapabilityError> {
    if block.attachmentId.None? || block.contentType.None? || block.fileName.None? || block.sizeBytes.None? ||
       block.sha256.None? then Some(MissingMetadata) else
    var typeError := MediaTypeError(Lower(Strip(block.contentType.value)), block.kind == Image, accepted);
    if typeError.Some? then typeError
    else MetadataError(block.sizeBytes.value, maxBytes, block.sha256.value, block.fileName.value)
  }

  function TextError(text: Option<string>, maxTextChars: int, maxBlocks: int): Option<CapabilityError> {
    if text.None? || Strip(text.value) == "" then Some(EmptyText)
    else if |text.value| > maxTextChars * maxBlocks then Some(TextTooLong)
    else None
  }

  function ValidateBlock(block: Block, caps: Capabilities): Option<CapabilityError> {
    if Textual(block.kind) then TextError(block.text, caps.maxTextChars, caps.maxBlocks)
    else AttachmentError(block, caps.acceptedContentTypes, caps.maxAttachmentBytes)
  }

  // ---------------------------------------------------------------- rewriting one block

  function AttachmentFallback(block: Block, name: string): Block {
    var description :=
      if block.altText.Some? && Strip(block.altText.value) != "" then Strip(block.altText.value) else "已附加";
    PlainText("[" + name + "：" + description + "]")
  }

  /** What the target platform lets happen to a valid block. */
  datatype Disposition = Keep | Downgrade | SendAsFile | Mention(name: string) | Refuse(error: CapabilityError)

  function Dispose(kind: Kind, caps: Capabilities): Disposition {
    if kind == Markdown && !caps.markdown then Downgrade
    else if kind == Image && !caps.images then
      if caps.files then SendAsFile else if caps.text then Mention("图片") else Refuse(ImageUnsupported)
    else if kind == File && !caps.files then
      if caps.text then Mention("附件") else Refuse(FileUnsupported)
    else if kind == Text && !caps.text then Refuse(TextUnsupported)
    else Keep
  }

  function Rewrite(block: Block, caps: Capabilities, passes: seq<Pass>): Block {
    match Dispose(block.kind, caps)
    case Downgrade => PlainText(MarkdownToText(passes, if block.text.Some? then block.text.value else ""))
    case SendAsFile => block.(kind := File)
    case Mention(name) => AttachmentFallback(block, name)
    case _ => block
  }

  function Reason(block: Block, caps: Capabilities): seq<Degradation> {
    match Dispose(block.kind, caps)
    case Downgrade => [MarkdownDowngraded]
    case SendAsFile => [ImageToFile]
    case Mention(_) => [if block.kind == Image then ImageToTextReference else FileToTextReference]
    case _ => []
  }

  function BlockError(block: Block, caps: Capabilities): Option<CapabilityError> {
    if ValidateBlock(block, caps).Some? then ValidateBlock(block, caps)
    else match Dispose(block.kind, caps)
         case Refuse(error) => Some(error)
         case _ => None
  }

  // ---------------------------------------------------------------- splitting

  /** The text in pieces of `size` characters, the last one possibly shorter. */
  function Chunks(text: string, size: int): seq<string>
    requires size >= 1
  {
    if text == "" then []
    else if |text| <= size then [text]
    else [text[..size]] + Chunks(text[size..], size)
  }

  function WithTexts(block: Block, texts: seq<string>): seq<Block> {
    seq(|texts|, i requires 0 <= i < |texts| => block.(text := Some(texts[i])))
  }

  function BodyText(block: Block): string {
    if block.text.Some? then block.text.value else ""
  }

  function Expand(block: Block, size: int): seq<Block>
    requires size >= 1
  {
    if Textual(block.kind) then WithTexts(block, Chunks(BodyText(block), size)) else [block]
  }

  function SplitReason(block: Block, size: int): seq<Degradation>
    requires size >= 1
  {
    if Textual(block.kind) && |Chunks(BodyText(block), size)| > 1 then [LongTextSplit] else []
  }

  // ---------------------------------------------------------------- the whole message

  function FirstError(blocks: seq<Block>, caps: Capabilities): Option<CapabilityError> {
    if blocks == [] then None
    else if FirstError(blocks[..|blocks| - 1], caps).Some? then FirstError(blocks[..|blocks| - 1], caps)
    else BlockError(blocks[|blocks| - 1], caps)
  }

  function Normalized(blocks: seq<Block>, caps: Capabilities, passes: seq<Pass>): seq<Block> {
    if blocks == [] then []
    else Normalized(blocks[..|blocks| - 1], caps, passes) + [Rewrite(blocks[|blocks| - 1], caps, passes)]
  }

  function Reasons(blocks: seq<Block>, caps: Capabilities): seq<Degradation> {
    if blocks == [] then []
    else Reasons(blocks[..|blocks| - 1], caps) + Reason(blocks[|blocks| - 1], caps)
  }

  function Expanded(blocks: seq<Block>, size: int): seq<Block>
    requires size >= 1
  {
    if blocks == [] then []
    else Expanded(blocks[..|blocks| - 1], size) + Expand(blocks[|blocks| - 1], size)
  }

  function SplitReasons(blocks: seq<Block>, size: int): seq<Degradation>
    requires size >= 1
  {
    if blocks == [] then []
    else SplitReasons(blocks[..|blocks| - 1], size) + SplitReason(blocks[|blocks| - 1], size)
  }

  /** Each value once, in order of first occurrence. */
  function Distinct(items: seq<Degradation>): seq<Degradation> {
    if items == [] then [] else
    var front := Distinct(items[..|items| - 1]);
    if items[|items| - 1] in front then front else front + [items[|items| - 1]]
  }

  function Buffered(command: Command, caps: Capabilities): bool {
    command.requestStreaming && !caps.streaming
  }

  function TransportReasons(command: Command, caps: Capabilities): seq<Degradation> {
    (if Buffered(command, caps) then [StreamingToBuffered] else []) +
    (if command.threadId.Some? && !caps.threads then [ThreadToRootMessage] else []) +
    (if command.editMessageId.Some? && !caps.messageEdit then [EditToNewMessage] else [])
  }

  function Negotiate(command: Command, caps: Capabilities, passes: seq<Pass>): Result<Negotiation, CapabilityError>
    requires caps.maxTextChars >= 1
  {
    if command.proactive && !caps.proactiveMessages then Err(ProactiveUnsupported) else
    if FirstError(command.blocks, caps).Some? then Err(FirstError(command.blocks, caps).value) else
    var normalized := Normalized(command.blocks, caps, passes);
    var expanded := Expanded(normalized, caps.maxTextChars);
    if |expanded| == 0 then Err(NothingToSend)
    else if |expanded| > caps.maxBlocks then Err(TooManyBlocks(caps.maxBlocks))
    else Ok(Negotiation(
      expanded,
      Distinct(TransportReasons(command, caps) + Reasons(command.blocks, caps) +
               SplitReasons(normalized, caps.maxTextChars)),
      Buffered(command, caps),
      if caps.threads then command.threadId else None,
      if caps.messageEdit then command.editMessageId else None))
  }

  /** The part of the audit summary that concerns attachments. */
  function AttachmentIds(blocks: seq<Block>): seq<string> {
    if blocks == [] then [] else
    var last := blocks[|blocks| - 1];
    AttachmentIds(blocks[..|blocks| - 1]) + if last.attachmentId.Some? then [last.attachmentId.value] else []
  }

  function TotalBytes(blocks: seq<Block>): int {
    if blocks == [] then 0 else
    var last := blocks[|blocks| - 1];
    TotalBytes(blocks[..|blocks| - 1]) + if last.sizeBytes.Some? then last.sizeBytes.value else 0
  }
}
