/** What an export message is, byte for byte: a pure function of template, header values and events. */
module Message {
  import opened Bytes
  import opened Event
  import opened Template
  import opened Record

  /** The clock readings a message header carries. */
  datatype Stamp = Stamp(unixSecs: u32, uptimeMs: u32)

  // ---- Template set, sections 3.2 and 3.4.1 of RFC 7011 and 5.2 of RFC 3954 ----

  function WithEnterpriseBit(id: u16): u16 {
    if id < ENTERPRISE_BIT then id + ENTERPRISE_BIT else id
  }

  function Specifier(f: ResolvedField): (s: seq<byte>)
    ensures |s| == SpecifierLen(f)
  {
    if f.pen.Some?
    then BE(WithEnterpriseBit(f.id), 2) + BE(f.length, 2) + BE(f.pen.value, 4)
    else BE(f.id, 2) + BE(f.length, 2)
  }

  function SpecifierChunks(fields: seq<ResolvedField>): (chunks: seq<seq<byte>>)
    ensures |chunks| == |fields|
    ensures forall i :: 0 <= i < |chunks| ==> chunks[i] == Specifier(fields[i])
  {
    seq(|fields|, i requires 0 <= i < |fields| => Specifier(fields[i]))
  }

  lemma {:induction false} SpecifierOffsets(fields: seq<ResolvedField>, n: nat)
    requires n <= |fields|
    ensures FlatLen(SpecifierChunks(fields), n) == SpecifiersLen(fields, n)
  {
    if n > 0 {
      SpecifierOffsets(fields, n - 1);
    }
  }

  /** A set: its id, its own length, its contents. */
  function SetBytes(id: u16, body: seq<byte>): (s: seq<byte>)
    ensures |s| == SET_HEADER_LEN + |body|
  {
    BE(id, 2) + BE(SET_HEADER_LEN + |body|, 2) + body
  }

  function TemplateRecord(t: Template): seq<byte> {
    BE(t.templateId, 2) + BE(|t.fields|, 2) + Flat(SpecifierChunks(t.fields), |t.fields|)
  }

  function TemplatePadding(t: Template): nat {
    t.SetSize() - (SET_HEADER_LEN + 4 + SpecifiersLen(t.fields, |t.fields|))
  }

  function TemplateSet(t: Template): seq<byte> {
    SetBytes(t.protocol.TemplateSetId(), TemplateRecord(t) + Zeros(TemplatePadding(t)))
  }

  /** The template set as the encoder writes it, piece by piece. */
  lemma TemplateSetPieces(t: Template)
    ensures TemplateSet(t) ==
            BE(t.protocol.TemplateSetId(), 2) + BE(t.SetSize(), 2) + BE(t.templateId, 2) + BE(|t.fields|, 2)
            + Flat(SpecifierChunks(t.fields), |t.fields|) + Zeros(TemplatePadding(t))
  {
    hide BE, Flat, Zeros, AlignUp;
    TemplateSetLen(t);
  }

  // ---- Data set, sections 3.4.3 of RFC 7011 and 5.3 of RFC 3954 ----

  function RecordsChunks(t: Template, events: seq<ConntrackEvent>): (chunks: seq<seq<byte>>)
    ensures |chunks| == |events|
    ensures forall i :: 0 <= i < |chunks| ==> chunks[i] == RecordBytes(t.fields, events[i])
  {
    seq(|events|, i requires 0 <= i < |events| => RecordBytes(t.fields, events[i]))
  }

  function RecordsBytes(t: Template, events: seq<ConntrackEvent>): seq<byte> {
    Flat(RecordsChunks(t, events), |events|)
  }

  function DataPadding(t: Template, n: nat): nat {
    t.DataSetSize(n) - (SET_HEADER_LEN + n * t.recordSize)
  }

  function DataSet(t: Template, events: seq<ConntrackEvent>): seq<byte> {
    SetBytes(t.templateId, RecordsBytes(t, events) + Zeros(DataPadding(t, |events|)))
  }

  // ---- Whole messages, sections 3.1 of RFC 7011 and 5.1 of RFC 3954 ----

  function TemplatePart(t: Template, withTemplate: bool): seq<byte> {
    if withTemplate then TemplateSet(t) else []
  }

  /** No records, no data set: a template can travel alone. */
  function DataPart(t: Template, events: seq<ConntrackEvent>): seq<byte> {
    if events == [] then [] else DataSet(t, events)
  }

  function BodyBytes(t: Template, withTemplate: bool, events: seq<ConntrackEvent>): seq<byte> {
    TemplatePart(t, withTemplate) + DataPart(t, events)
  }

  function IpfixHeader(length: nat, stamp: Stamp, sequence: u32, domain: u32): (s: seq<byte>)
    ensures |s| == 16
  {
    BE(10, 2) + BE(length, 2) + BE(stamp.unixSecs, 4) + BE(sequence, 4) + BE(domain, 4)
  }

  function Netflow9Header(count: nat, stamp: Stamp, sequence: u32, domain: u32): (s: seq<byte>)
    ensures |s| == 20
  {
    BE(9, 2) + BE(count, 2) + BE(stamp.uptimeMs, 4) + BE(stamp.unixSecs, 4) + BE(sequence, 4) + BE(domain, 4)
  }

  /** Records in the message as v9 counts them: templates and data records alike. */
  function RecordTotal(withTemplate: bool, records: nat): nat {
    records + if withTemplate then 1 else 0
  }

  function Header(p: Protocol, bodyLen: nat, total: nat, stamp: Stamp, sequence: u32, domain: u32): (s: seq<byte>)
    ensures |s| == p.HeaderLen()
  {
    match p
    case Ipfix => IpfixHeader(p.HeaderLen() + bodyLen, stamp, sequence, domain)
    case Netflow9 => Netflow9Header(total, stamp, sequence, domain)
  }

  function EncodeMessage(t: Template, withTemplate: bool, stamp: Stamp, sequence: u32, domain: u32,
                         events: seq<ConntrackEvent>): seq<byte> {
    var body := BodyBytes(t, withTemplate, events);
    Header(t.protocol, |body|, RecordTotal(withTemplate, |events|), stamp, sequence, domain) + body
  }

  // ---- Sizes ----

  lemma RecordLen(t: Template, e: ConntrackEvent)
    requires Exportable(t)
    ensures WidthsAreSound(t.fields)
    ensures |RecordBytes(t.fields, e)| == t.recordSize == Offset(t.fields, |t.fields|)
  {
    hide FieldBytes;
    FieldOffsets(t.fields, |t.fields|, e);
  }

  lemma RecordsLen(t: Template, events: seq<ConntrackEvent>, n: nat)
    requires Exportable(t) && n <= |events|
    ensures FlatLen(RecordsChunks(t, events), n) == n * t.recordSize
  {
    hide RecordBytes;
    var chunks := RecordsChunks(t, events);
    forall i | 0 <= i < n
      ensures |chunks[i]| == t.recordSize
    {
      RecordLen(t, events[i]);
    }
    UniformChunks(chunks, t.recordSize, n);
  }

  /** The set written field by field has exactly the size announced before it is written. */
  lemma TemplateSetLen(t: Template)
    ensures |TemplateSet(t)| == t.SetSize()
    ensures |TemplateRecord(t)| == 4 + SpecifiersLen(t.fields, |t.fields|)
  {
    SpecifierOffsets(t.fields, |t.fields|);
  }

  /** A data set of n records has exactly the size `data_set_size` predicts. */
  lemma DataSetLen(t: Template, events: seq<ConntrackEvent>)
    requires Exportable(t)
    ensures |RecordsBytes(t, events)| == |events| * t.recordSize
    ensures |DataSet(t, events)| == t.DataSetSize(|events|)
  {
    hide RecordsChunks;
    RecordsLen(t, events, |events|);
  }

  /** Header and sets tile the message: these are the only lengths a reader meets. */
  function MessageLen(t: Template, withTemplate: bool, n: nat): nat {
    t.DataStart(withTemplate) + if n == 0 then 0 else t.DataSetSize(n)
  }

  lemma MessageIsTiled(t: Template, withTemplate: bool, stamp: Stamp, sequence: u32, domain: u32,
                       events: seq<ConntrackEvent>)
    requires Exportable(t)
    ensures |EncodeMessage(t, withTemplate, stamp, sequence, domain, events)| == MessageLen(t, withTemplate, |events|)
    ensures |TemplatePart(t, withTemplate)| == t.DataStart(withTemplate) - t.protocol.HeaderLen()
    ensures |DataPart(t, events)| == if events == [] then 0 else t.DataSetSize(|events|)
  {
    hide TemplateSet, DataSet;
    TemplateSetLen(t);
    DataSetLen(t, events);
  }

  /**
   * Set boundaries: a message whose last record `add_record` accepted fits the budget, and every set starts
   * and ends on the protocol's alignment, so aligning the message offset and aligning the set length agree.
   */
  lemma SetsAreAlignedAndFit(t: Template, withTemplate: bool, n: nat)
    requires Exportable(t)
    requires n > 0 ==> t.RecordFits(withTemplate, n)
    ensures MessageLen(t, withTemplate, n) <= MAX_MSG_SIZE
    ensures t.protocol.Netflow9? ==> t.DataStart(withTemplate) % 4 == 0 && MessageLen(t, withTemplate, n) % 4 == 0
    ensures AlignUp(t.DataStart(withTemplate) + SET_HEADER_LEN + n * t.recordSize, t.protocol.SetAlignment()) ==
            t.DataStart(withTemplate) + t.DataSetSize(n)
  {
    hide *;
    TemplateFits(t, withTemplate);
    DataStartIsAligned(t, withTemplate);
    LayoutMeans(t, withTemplate, n);
    AlignedRegion(t.DataStart(withTemplate), SET_HEADER_LEN + n * t.recordSize, t.protocol.SetAlignment());
  }

  lemma LayoutMeans(t: Template, withTemplate: bool, n: nat)
    ensures var a, len := t.protocol.SetAlignment(), SET_HEADER_LEN + n * t.recordSize;
            && (a == if t.protocol.Netflow9? then 4 else 1)
            && (t.RecordFits(withTemplate, n) <==> t.DataStart(withTemplate) + len + a - 1 <= MAX_MSG_SIZE)
            && t.DataSetSize(n) == AlignUp(len, a)
            && MessageLen(t, withTemplate, n) == t.DataStart(withTemplate) + if n == 0 then 0 else AlignUp(len, a)
  {
    hide AlignUp, Template.DataStart;
  }

  lemma TemplateFits(t: Template, withTemplate: bool)
    requires Exportable(t)
    ensures t.DataStart(withTemplate) <= MAX_MSG_SIZE
  {
    hide AlignUp, FieldIsSound;
  }

  lemma AlignedRegion(start: nat, len: nat, a: nat)
    requires a == 1 || a == 4
    requires start % a == 0
    ensures AlignUp(start + len, a) == start + AlignUp(len, a) < start + len + a
    ensures a == 4 ==> start % 4 == 0 && (start + AlignUp(len, a)) % 4 == 0
  {
    hide AlignUp;
    AlignTogether(start, len, a);
  }

  /** The v9 total of templates and records stays below 2^16 in every message that fits. */
  lemma CountFitsSixteenBits(t: Template, withTemplate: bool, n: nat)
    requires Exportable(t)
    requires n > 0 ==> t.RecordFits(withTemplate, n)
    ensures RecordTotal(withTemplate, n) == n + (if withTemplate then 1 else 0) <= 0xFFFF
  {
    hide AlignUp, FieldIsSound;
    MulIsMonotone(1, t.recordSize, n);
  }

  lemma DataStartIsAligned(t: Template, withTemplate: bool)
    ensures t.DataStart(withTemplate) % t.protocol.SetAlignment() == 0
  {
    hide AlignUp;
    match t.protocol {
      case Ipfix =>
      case Netflow9 => assert t.SetSize() % 4 == 0;
    }
  }
}
