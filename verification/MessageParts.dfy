/**
The message-parts backfill: one text block per message at position 0, then one block per attached
file, numbered by a window over each message's attachments in order of creation time and id.
*/
module MessageParts {
  import opened Wrappers
  import opened ChatEvents
  import opened ChatReducerProofs

  datatype MessageRow = MessageRow(id: int, tenantId: int, content: string, createdAt: int, updatedAt: int)

  datatype AttachmentStatus = Pending | Ready | Attached | Rejected | Deleted

  datatype AttachmentRow = AttachmentRow(
    id: int, tenantId: int, messageId: Option<int>, originalName: string, contentType: string, sizeBytes: int,
    sha256: string, status: AttachmentStatus, createdAt: int, uploadedAt: Option<int>, attachedAt: Option<int>)

  datatype PartRow = PartRow(
    id: int, tenantId: int, messageId: int, position: int, kind: PartKind, text: Option<string>,
    attachmentId: Option<int>, contentType: Option<string>, fileName: Option<string>, sizeBytes: Option<int>,
    sha256: Option<string>, altText: Option<string>, createdAt: int, updatedAt: int)

  predicate IsHexDigest(s: string) {
    |s| == 64 && forall i :: 0 <= i < |s| ==> '0' <= s[i] <= '9' || 'a' <= s[i] <= 'f'
  }

  /** The pattern of the digest columns: 64 lower-case hexadecimal digits. */
  lemma HexDigestExact(s: string)
    ensures IsHexDigest(s) <==> |s| == 64 && forall i :: 0 <= i < |s| ==> s[i] in "0123456789abcdef"
  {
    assert forall c: char :: '0' <= c <= '9' || 'a' <= c <= 'f' ==> c in "0123456789abcdef" by {
      forall c: char | '0' <= c <= '9' || 'a' <= c <= 'f' ensures c in "0123456789abcdef" {
        HexDigitListed(c);
      }
    }
  }

  lemma HexDigitListed(c: char)
    ensures c in "0123456789abcdef" <==> '0' <= c <= '9' || 'a' <= c <= 'f'
  {
    var digits := "0123456789abcdef";
    if '0' <= c <= '9' {
      assert digits[c as int - '0' as int] == c;
    } else if 'a' <= c <= 'f' {
      assert digits[10 + (c as int - 'a' as int)] == c;
    }
  }

  predicate IsImageType(contentType: string) {
    "image/" <= contentType
  }

  // ---------------------------------------------------------------- the two inserts

  /** The rows of the second insert's WHERE clause. */
  predicate Selected(a: AttachmentRow) {
    a.messageId.Some? && a.status == Attached
  }

  function SelectedRows(attachments: seq<AttachmentRow>): seq<AttachmentRow> {
    if attachments == [] then []
    else if Selected(attachments[|attachments| - 1]) then
      SelectedRows(attachments[..|attachments| - 1]) + [attachments[|attachments| - 1]]
    else
      SelectedRows(attachments[..|attachments| - 1])
  }

  /** ORDER BY created_at, id. */
  predicate Before(a: AttachmentRow, b: AttachmentRow) {
    a.createdAt < b.createdAt || (a.createdAt == b.createdAt && a.id < b.id)
  }

  /** PARTITION BY message_id. */
  function Partition(rows: seq<AttachmentRow>, messageId: Option<int>): set<AttachmentRow> {
    set a | a in rows && a.messageId == messageId
  }

  function Earlier(rows: set<AttachmentRow>, a: AttachmentRow): set<AttachmentRow> {
    set b | b in rows && Before(b, a)
  }

  /** row_number() over the partition of `a`: one more than the rows ordered before it. */
  function RowNumber(rows: seq<AttachmentRow>, a: AttachmentRow): int {
    1 + |Earlier(Partition(rows, a.messageId), a)|
  }

  function TextPart(m: MessageRow, id: int): PartRow {
    PartRow(id, m.tenantId, m.id, 0, MarkdownPart, Some(m.content), None, None, None, None, None, None,
            m.createdAt, m.updatedAt)
  }

  function AttachmentPart(a: AttachmentRow, id: int, position: int): PartRow
    requires Selected(a)
  {
    PartRow(id, a.tenantId, a.messageId.value, position, if IsImageType(a.contentType) then ImagePart else FilePart,
            None, Some(a.id), Some(a.contentType), Some(a.originalName), Some(a.sizeBytes), Some(a.sha256),
            if IsImageType(a.contentType) then Some(a.originalName) else None, a.createdAt,
            if a.attachedAt.Some? then a.attachedAt.value
            else if a.uploadedAt.Some? then a.uploadedAt.value else a.createdAt)
  }

  /** `draw` is the stream of random identifiers; the n-th inserted row takes the n-th one. */
  function TextParts(messages: seq<MessageRow>, draw: nat -> int): seq<PartRow> {
    seq(|messages|, i requires 0 <= i < |messages| => TextPart(messages[i], draw(i)))
  }

  function AttachmentParts(rows: seq<AttachmentRow>, draw: nat -> int, used: nat): seq<PartRow>
    requires forall i :: 0 <= i < |rows| ==> Selected(rows[i])
  {
    seq(|rows|, i requires 0 <= i < |rows| => AttachmentPart(rows[i], draw(used + i), RowNumber(rows, rows[i])))
  }

  lemma {:induction false} SelectedRowsExactly(attachments: seq<AttachmentRow>, a: AttachmentRow)
    ensures a in SelectedRows(attachments) <==> a in attachments && Selected(a)
  {
    if attachments != [] {
      SelectedRowsExactly(attachments[..|attachments| - 1], a);
      assert attachments == attachments[..|attachments| - 1] + [attachments[|attachments| - 1]];
    }
  }

  lemma {:induction false} AllSelected(attachments: seq<AttachmentRow>)
    ensures forall i :: 0 <= i < |SelectedRows(attachments)| ==> Selected(SelectedRows(attachments)[i])
  {
    if attachments != [] {
      AllSelected(attachments[..|attachments| - 1]);
    }
  }

  /** The new table: the text blocks, then the attachment blocks. */
  function Backfilled(messages: seq<MessageRow>, attachments: seq<AttachmentRow>, draw: nat -> int): seq<PartRow> {
    AllSelected(attachments);
    TextParts(messages, draw) + AttachmentParts(SelectedRows(attachments), draw, |messages|)
  }

  class MessagePartsTable {
    var rows: seq<PartRow>

    constructor ()
      ensures rows == []
    {
      rows := [];
    }

    /** The two INSERT statements, run right after the table is created. */
    method Upgrade(messages: seq<MessageRow>, attachments: seq<AttachmentRow>, draw: nat -> int)
      modifies this
      ensures rows == old(rows) + Backfilled(messages, attachments, draw)
    {
      AllSelected(attachments);
      rows := rows + TextParts(messages, draw);
      rows := rows + AttachmentParts(SelectedRows(attachments), draw, |messages|);
    }
  }

  // ---------------------------------------------------------------- ranking

  ghost predicate DistinctIds(rows: set<AttachmentRow>) {
    forall a, b :: a in rows && b in rows && a.id == b.id ==> a == b
  }

  lemma {:induction false} LastRow(rows: set<AttachmentRow>) returns (last: AttachmentRow)
    requires DistinctIds(rows) && rows != {}
    ensures last in rows && forall a :: a in rows && a != last ==> Before(a, last)
    decreases |rows|
  {
    var some :| some in rows;
    if rows == {some} {
      last := some;
    } else {
      assert rows - {some} != {} by {
        assert exists a :: a in rows && a != some;
      }
      var best := LastRow(rows - {some});
      last := if Before(best, some) then some else best;
      forall a | a in rows && a != last ensures Before(a, last) {
        assert a in rows - {some} || a == some;
        assert best in rows && (best.id == some.id ==> best == some);
      }
    }
  }

  /** The window numbers a partition 1, 2, ... without gaps or repetitions. */
  lemma {:induction false} RankOnto(rows: set<AttachmentRow>, k: nat) returns (a: AttachmentRow)
    requires DistinctIds(rows) && k < |rows|
    ensures a in rows && |Earlier(rows, a)| == k
    decreases |rows|
  {
    var last := LastRow(rows);
    var others := rows - {last};
    if k == |rows| - 1 {
      a := last;
      assert Earlier(rows, last) == others;
    } else {
      a := RankOnto(others, k);
      assert Earlier(rows, a) == Earlier(others, a);
    }
  }

  lemma SmallerSet(a: set<AttachmentRow>, b: set<AttachmentRow>, x: AttachmentRow)
    requires a <= b && x in b && x !in a
    ensures |a| < |b|
  {
    assert a <= b - {x};
    SubsetSize(a, b - {x});
  }

  lemma {:induction false} SubsetSize(a: set<AttachmentRow>, b: set<AttachmentRow>)
    requires a <= b
    ensures |a| <= |b|
    decreases |a|
  {
    if a != {} {
      var x :| x in a;
      SubsetSize(a - {x}, b - {x});
    }
  }

  /** Numbers follow the window's order. */
  lemma {:induction false} RankMonotone(rows: set<AttachmentRow>, a: AttachmentRow, b: AttachmentRow)
    requires DistinctIds(rows) && a in rows && b in rows
    ensures |Earlier(rows, a)| < |Earlier(rows, b)| <==> Before(a, b)
    ensures |Earlier(rows, a)| < |rows|
  {
    if Before(a, b) {
      SmallerSet(Earlier(rows, a), Earlier(rows, b), a);
    } else if a != b {
      assert Before(b, a);
      SmallerSet(Earlier(rows, b), Earlier(rows, a), b);
    }
    SmallerSet(Earlier(rows, a), rows, a);
  }

  // ---------------------------------------------------------------- what the backfill establishes

  /** The constraints the two source tables already satisfy. */
  ghost predicate Legal(messages: seq<MessageRow>, attachments: seq<AttachmentRow>, tenants: set<int>) {
    && (forall i, j :: 0 <= i < j < |messages| ==> messages[i].id != messages[j].id)
    && (forall i, j :: 0 <= i < j < |attachments| ==> attachments[i].id != attachments[j].id)
    && (forall m :: m in messages ==> m.tenantId in tenants)
    && (forall a :: a in attachments ==>
          a.tenantId in tenants && a.sizeBytes > 0 && IsHexDigest(a.sha256) &&
          (a.messageId.Some? ==> exists m :: m in messages && m.id == a.messageId.value))
  }

  ghost predicate Injective(draw: nat -> int) {
    forall i: nat, j: nat :: draw(i) == draw(j) ==> i == j
  }

  /** The CHECK constraints of the new table. */
  ghost predicate RowFits(p: PartRow) {
    p.position >= 0 &&
    if p.kind == ChatEvents.TextPart || p.kind == MarkdownPart then
      p.text.Some? && p.attachmentId.None? && p.contentType.None? && p.fileName.None? && p.sizeBytes.None? &&
      p.sha256.None?
    else
      p.text.None? && p.contentType.Some? && p.fileName.Some? && p.sizeBytes.Some? && p.sizeBytes.value > 0 &&
      p.sha256.Some? && |p.sha256.value| == 64 &&
      forall i :: 0 <= i < 64 ==> '0' <= p.sha256.value[i] <= '9' || 'a' <= p.sha256.value[i] <= 'f'
  }

  ghost predicate References(
    p: PartRow, messages: seq<MessageRow>, attachments: seq<AttachmentRow>, tenants: set<int>) {
    && (exists m :: m in messages && m.id == p.messageId)
    && (p.attachmentId.Some? ==> exists a :: a in attachments && a.id == p.attachmentId.value)
    && p.tenantId in tenants
  }

  /** Primary key (id) and unique constraint (message_id, position). */
  ghost predicate Keys(rows: seq<PartRow>) {
    forall i, j :: 0 <= i < j < |rows| ==> !SameKey(rows[i], rows[j])
  }

  lemma {:induction false} SelectedDistinct(attachments: seq<AttachmentRow>)
    requires forall i, j :: 0 <= i < j < |attachments| ==> attachments[i].id != attachments[j].id
    ensures forall i, j :: 0 <= i < j < |SelectedRows(attachments)| ==>
              SelectedRows(attachments)[i].id != SelectedRows(attachments)[j].id
  {
    if attachments != [] {
      var front, last := attachments[..|attachments| - 1], attachments[|attachments| - 1];
      SelectedDistinct(front);
      var rows := SelectedRows(front);
      forall i | 0 <= i < |rows| ensures rows[i].id != last.id {
        SelectedRowsExactly(front, rows[i]);
        var k :| 0 <= k < |front| && front[k] == rows[i];
        assert attachments[k] == front[k];
      }
    }
  }

  lemma PartitionDistinct(rows: seq<AttachmentRow>, messageId: Option<int>)
    requires forall i, j :: 0 <= i < j < |rows| ==> rows[i].id != rows[j].id
    ensures DistinctIds(Partition(rows, messageId))
  {
  }

  lemma {:induction false} RowNumbersDiffer(rows: seq<AttachmentRow>, i: nat, j: nat)
    requires forall i, j :: 0 <= i < j < |rows| ==> rows[i].id != rows[j].id
    requires i < j < |rows| && rows[i].messageId == rows[j].messageId
    ensures RowNumber(rows, rows[i]) != RowNumber(rows, rows[j])
  {
    var part := Partition(rows, rows[i].messageId);
    PartitionDistinct(rows, rows[i].messageId);
    assert rows[i] in part && rows[j] in part;
    RankMonotone(part, rows[i], rows[j]);
    RankMonotone(part, rows[j], rows[i]);
  }

  lemma SelectedAt(attachments: seq<AttachmentRow>, k: nat)
    requires k < |SelectedRows(attachments)|
    ensures Selected(SelectedRows(attachments)[k])
  {
    AllSelected(attachments);
  }

  lemma TextRowAt(messages: seq<MessageRow>, attachments: seq<AttachmentRow>, draw: nat -> int, i: nat)
    requires i < |messages|
    ensures |Backfilled(messages, attachments, draw)| == |messages| + |SelectedRows(attachments)|
    ensures Backfilled(messages, attachments, draw)[i] == TextPart(messages[i], draw(i))
  {
  }

  lemma FileRowAt(messages: seq<MessageRow>, attachments: seq<AttachmentRow>, draw: nat -> int, k: nat)
    requires k < |SelectedRows(attachments)| && Selected(SelectedRows(attachments)[k])
    ensures |Backfilled(messages, attachments, draw)| == |messages| + |SelectedRows(attachments)|
    ensures var rows := SelectedRows(attachments);
            Backfilled(messages, attachments, draw)[|messages| + k] ==
            AttachmentPart(rows[k], draw(|messages| + k), RowNumber(rows, rows[k]))
  {
  }

  lemma BackfilledAt(messages: seq<MessageRow>, attachments: seq<AttachmentRow>, draw: nat -> int, i: nat)
    requires i < |messages| + |SelectedRows(attachments)|
    ensures |Backfilled(messages, attachments, draw)| == |messages| + |SelectedRows(attachments)|
    ensures i < |messages| ==> Backfilled(messages, attachments, draw)[i] == TextPart(messages[i], draw(i))
    ensures i >= |messages| ==>
              var rows, k := SelectedRows(attachments), i - |messages|;
              Selected(rows[k]) &&
              Backfilled(messages, attachments, draw)[i] ==
              AttachmentPart(rows[k], draw(i), RowNumber(rows, rows[k]))
  {
    if i < |messages| {
      TextRowAt(messages, attachments, draw, i);
    } else {
      SelectedAt(attachments, i - |messages|);
      FileRowAt(messages, attachments, draw, i - |messages|);
    }
  }

  lemma {:induction false} BackfilledRow(
    messages: seq<MessageRow>, attachments: seq<AttachmentRow>, tenants: set<int>, draw: nat -> int, i: nat)
    requires Legal(messages, attachments, tenants) && i < |messages| + |SelectedRows(attachments)|
    ensures i < |Backfilled(messages, attachments, draw)|
    ensures RowFits(Backfilled(messages, attachments, draw)[i])
    ensures References(Backfilled(messages, attachments, draw)[i], messages, attachments, tenants)
  {
    BackfilledAt(messages, attachments, draw, i);
    if i < |messages| {
      assert messages[i] in messages;
    } else {
      SelectedRowsExactly(attachments, SelectedRows(attachments)[i - |messages|]);
    }
  }

  lemma {:induction false} FilePositionsDiffer(attachments: seq<AttachmentRow>, i: nat, j: nat)
    requires forall i, j :: 0 <= i < j < |attachments| ==> attachments[i].id != attachments[j].id
    requires i < j < |SelectedRows(attachments)|
    ensures var rows := SelectedRows(attachments);
            rows[i].messageId != rows[j].messageId || RowNumber(rows, rows[i]) != RowNumber(rows, rows[j])
  {
    var rows := SelectedRows(attachments);
    SelectedDistinct(attachments);
    if rows[i].messageId == rows[j].messageId {
      RowNumbersDiffer(rows, i, j);
    }
  }

  ghost predicate SameKey(p: PartRow, q: PartRow) {
    p.id == q.id || (p.messageId == q.messageId && p.position == q.position)
  }

  lemma {:induction false} BackfilledPair(
    messages: seq<MessageRow>, attachments: seq<AttachmentRow>, draw: nat -> int, i: nat, j: nat)
    requires forall i, j :: 0 <= i < j < |messages| ==> messages[i].id != messages[j].id
    requires forall i, j :: 0 <= i < j < |attachments| ==> attachments[i].id != attachments[j].id
    requires draw(i) != draw(j) && i < j < |messages| + |SelectedRows(attachments)|
    ensures j < |Backfilled(messages, attachments, draw)|
    ensures !SameKey(Backfilled(messages, attachments, draw)[i], Backfilled(messages, attachments, draw)[j])
  {
    BackfilledAt(messages, attachments, draw, i);
    BackfilledAt(messages, attachments, draw, j);
    if i >= |messages| {
      FilePositionsDiffer(attachments, i - |messages|, j - |messages|);
    } else if j < |messages| {
      assert messages[i].id != messages[j].id;
    }
  }

  /** From every legal state the new table satisfies its keys, checks and foreign keys. */
  lemma {:induction false} BackfillLegal(
    messages: seq<MessageRow>, attachments: seq<AttachmentRow>, tenants: set<int>, draw: nat -> int)
    requires Legal(messages, attachments, tenants) && Injective(draw)
    ensures Keys(Backfilled(messages, attachments, draw))
    ensures forall p :: p in Backfilled(messages, attachments, draw) ==>
              RowFits(p) && References(p, messages, attachments, tenants)
  {
    var table := Backfilled(messages, attachments, draw);
    AllSelected(attachments);
    forall i, j | 0 <= i < j < |table| ensures !SameKey(table[i], table[j]) {
      assert draw(i) != draw(j);
      BackfilledPair(messages, attachments, draw, i, j);
    }
    forall p | p in table ensures RowFits(p) && References(p, messages, attachments, tenants) {
      var i :| 0 <= i < |table| && table[i] == p;
      BackfilledRow(messages, attachments, tenants, draw, i);
    }
  }

  /** The attached files of a message. */
  function FilesOf(attachments: seq<AttachmentRow>, m: MessageRow): set<AttachmentRow> {
    Partition(SelectedRows(attachments), Some(m.id))
  }

  lemma {:induction false} FilesExactly(attachments: seq<AttachmentRow>, m: MessageRow, a: AttachmentRow)
    ensures a in FilesOf(attachments, m) <==> a in attachments && a.status == Attached && a.messageId == Some(m.id)
  {
    SelectedRowsExactly(attachments, a);
  }

  /** Position 0 of every message, and only it, repeats the message content. */
  lemma {:induction false} TextAtZero(
    messages: seq<MessageRow>, attachments: seq<AttachmentRow>, tenants: set<int>, draw: nat -> int,
    m: MessageRow, p: PartRow)
    requires Legal(messages, attachments, tenants) && m in messages
    requires p in Backfilled(messages, attachments, draw) && p.messageId == m.id
    ensures p.position == 0 <==> p.kind == MarkdownPart
    ensures p.position == 0 ==>
              p.text == Some(m.content) && p.tenantId == m.tenantId && p.createdAt == m.createdAt &&
              p.updatedAt == m.updatedAt && p.attachmentId == None && p.contentType == None &&
              p.fileName == None && p.sizeBytes == None && p.sha256 == None && p.altText == None
    ensures p.position > 0 ==> p.kind in {ImagePart, FilePart}
  {
    var table := Backfilled(messages, attachments, draw);
    AllSelected(attachments);
    var i :| 0 <= i < |table| && table[i] == p;
    BackfilledAt(messages, attachments, draw, i);
    if i < |messages| {
      var k :| 0 <= k < |messages| && messages[k] == m;
      assert messages[i].id == messages[k].id;
    }
  }

  lemma {:induction false} FileRow(
    messages: seq<MessageRow>, attachments: seq<AttachmentRow>, draw: nat -> int, m: MessageRow, a: AttachmentRow)
    returns (p: PartRow)
    requires a in FilesOf(attachments, m)
    ensures p in Backfilled(messages, attachments, draw) && p.messageId == m.id && p.attachmentId == Some(a.id)
    ensures p.position == 1 + |Earlier(FilesOf(attachments, m), a)| && p.text == None
    ensures p.contentType == Some(a.contentType) && p.fileName == Some(a.originalName)
    ensures p.sizeBytes == Some(a.sizeBytes) && p.sha256 == Some(a.sha256) && p.tenantId == a.tenantId
    ensures p.kind == ImagePart <==> "image/" <= a.contentType
    ensures p.kind == FilePart <==> !("image/" <= a.contentType)
    ensures p.altText == if p.kind == ImagePart then p.fileName else None
    ensures p.createdAt == a.createdAt
    ensures p.updatedAt == match (a.attachedAt, a.uploadedAt)
                           case (Some(attached), _) => attached
                           case (None, Some(uploaded)) => uploaded
                           case (None, None) => a.createdAt
  {
    var rows := SelectedRows(attachments);
    AllSelected(attachments);
    var k :| 0 <= k < |rows| && rows[k] == a;
    BackfilledAt(messages, attachments, draw, |messages| + k);
    p := Backfilled(messages, attachments, draw)[|messages| + k];
  }

  lemma {:induction false} RowOfFile(
    messages: seq<MessageRow>, attachments: seq<AttachmentRow>, draw: nat -> int, p: PartRow)
    returns (a: AttachmentRow)
    requires p in Backfilled(messages, attachments, draw) && p.attachmentId.Some?
    ensures a in SelectedRows(attachments) && Selected(a) && a.messageId == Some(p.messageId)
    ensures p.attachmentId == Some(a.id)
    ensures p.position == 1 + |Earlier(Partition(SelectedRows(attachments), Some(p.messageId)), a)|
  {
    var table := Backfilled(messages, attachments, draw);
    AllSelected(attachments);
    var i :| 0 <= i < |table| && table[i] == p;
    BackfilledAt(messages, attachments, draw, i);
    a := SelectedRows(attachments)[i - |messages|];
  }

  ghost predicate HasPosition(table: seq<PartRow>, messageId: int, k: int) {
    exists p :: p in table && p.messageId == messageId && p.position == k
  }

  /** A message with n attached files has parts at positions exactly 0..n. */
  lemma {:induction false} PositionsExactly(
    messages: seq<MessageRow>, attachments: seq<AttachmentRow>, tenants: set<int>, draw: nat -> int,
    m: MessageRow, k: int)
    requires Legal(messages, attachments, tenants) && m in messages
    ensures HasPosition(Backfilled(messages, attachments, draw), m.id, k) <==>
            0 <= k <= |FilesOf(attachments, m)|
  {
    var table, files := Backfilled(messages, attachments, draw), FilesOf(attachments, m);
    SelectedDistinct(attachments);
    PartitionDistinct(SelectedRows(attachments), Some(m.id));
    if k == 0 {
      var i :| 0 <= i < |messages| && messages[i] == m;
      BackfilledAt(messages, attachments, draw, i);
      assert table[i] in table && table[i].position == 0;
    } else if 1 <= k <= |files| {
      var a := RankOnto(files, k - 1);
      var p := FileRow(messages, attachments, draw, m, a);
    }
    if HasPosition(table, m.id, k) && k != 0 {
      var p :| p in table && p.messageId == m.id && p.position == k;
      PositionOfFile(messages, attachments, draw, m, p);
    }
  }

  lemma {:induction false} PositionOfFile(
    messages: seq<MessageRow>, attachments: seq<AttachmentRow>, draw: nat -> int, m: MessageRow, p: PartRow)
    requires p in Backfilled(messages, attachments, draw) && p.messageId == m.id && p.position != 0
    requires DistinctIds(FilesOf(attachments, m))
    ensures 1 <= p.position <= |FilesOf(attachments, m)|
  {
    var table := Backfilled(messages, attachments, draw);
    AllSelected(attachments);
    var i :| 0 <= i < |table| && table[i] == p;
    BackfilledAt(messages, attachments, draw, i);
    var a := RowOfFile(messages, attachments, draw, p);
    RankMonotone(FilesOf(attachments, m), a, a);
  }

  /** Attached files keep their order: later parts are later files, and different files get different parts. */
  lemma {:induction false} FilesInOrder(
    messages: seq<MessageRow>, attachments: seq<AttachmentRow>, tenants: set<int>, draw: nat -> int,
    m: MessageRow, a: AttachmentRow, b: AttachmentRow)
    returns (p: PartRow, q: PartRow)
    requires Legal(messages, attachments, tenants) && m in messages
    requires a in FilesOf(attachments, m) && b in FilesOf(attachments, m)
    ensures p in Backfilled(messages, attachments, draw) && p.messageId == m.id && p.attachmentId == Some(a.id)
    ensures q in Backfilled(messages, attachments, draw) && q.messageId == m.id && q.attachmentId == Some(b.id)
    ensures p.position < q.position <==> a.createdAt < b.createdAt || (a.createdAt == b.createdAt && a.id < b.id)
    ensures p.position == q.position <==> a == b
  {
    SelectedDistinct(attachments);
    PartitionDistinct(SelectedRows(attachments), Some(m.id));
    p := FileRow(messages, attachments, draw, m, a);
    q := FileRow(messages, attachments, draw, m, b);
    RankMonotone(FilesOf(attachments, m), a, b);
    RankMonotone(FilesOf(attachments, m), b, a);
  }

  // ---------------------------------------------------------------- the projection the browser keeps

  /** A chat message served from the backfilled rows of one stored message. */
  ghost predicate ServedFrom(c: Message, m: MessageRow, table: seq<PartRow>) {
    c.head.content == m.content &&
    forall i :: 0 <= i < |c.parts| ==>
      exists p :: p in table && p.messageId == m.id &&
        c.parts[i].position == p.position && c.parts[i].kind == p.kind && c.parts[i].text == p.text
  }

  /** The backfill establishes the body projection that `ChatReducerProofs.ProjectionKept` maintains. */
  lemma {:induction false} BackfillProjects(
    messages: seq<MessageRow>, attachments: seq<AttachmentRow>, tenants: set<int>, draw: nat -> int,
    m: MessageRow, c: Message)
    requires Legal(messages, attachments, tenants) && m in messages
    requires ServedFrom(c, m, Backfilled(messages, attachments, draw))
    ensures Projected(c)
  {
    var table := Backfilled(messages, attachments, draw);
    forall i | 0 <= i < |c.parts| && IsBody(c.parts[i]) ensures c.parts[i].text == Some(c.head.content) {
      var p :| p in table && p.messageId == m.id &&
        c.parts[i].position == p.position && c.parts[i].kind == p.kind && c.parts[i].text == p.text;
      TextAtZero(messages, attachments, tenants, draw, m, p);
    }
  }
}
