/** Whole messages: decoding an encoded message returns its template and exactly its records. */
module MessageRoundTrip {
  import opened Bytes
  import opened Event
  import opened Template
  import opened Record
  import opened Message
  import opened Collector
  import opened RoundTrip

  // ---- Reading integers out of a concatenation ----

  lemma U16Reads(before: seq<byte>, v: nat, after: seq<byte>)
    requires v < 0x1_0000
    ensures U16At(before + BE(v, 2) + after, |before|) == v
  {
    hide BE, FromBE;
    assert (before + BE(v, 2) + after)[|before|..|before| + 2] == BE(v, 2);
    WordSizes();
    FromBEofBE(v, 2);
  }

  lemma U32Reads(before: seq<byte>, v: nat, after: seq<byte>)
    requires v < 0x1_0000_0000
    ensures U32At(before + BE(v, 4) + after, |before|) == v
  {
    hide BE, FromBE;
    assert (before + BE(v, 4) + after)[|before|..|before| + 4] == BE(v, 4);
    WordSizes();
    FromBEofBE(v, 4);
  }

  // ---- Template sets ----

  /** A plain specifier reads back as its id and length. */
  lemma PlainSpecifierReads(before: seq<byte>, id: nat, length: nat, after: seq<byte>)
    requires id < 0x1_0000 && length < 0x1_0000
    ensures var s := before + (BE(id, 2) + BE(length, 2)) + after;
            && |s| >= |before| + 4
            && U16At(s, |before|) == id
            && U16At(s, |before| + 2) == length
  {
    hide BE, U16At;
    var s := before + (BE(id, 2) + BE(length, 2)) + after;
    U16Reads(before, id, BE(length, 2) + after);
    assert s == before + BE(id, 2) + (BE(length, 2) + after);
    U16Reads(before + BE(id, 2), length, after);
    assert s == (before + BE(id, 2)) + BE(length, 2) + after;
  }

  lemma EnterpriseSpecifierReads(before: seq<byte>, id: nat, length: nat, pen: nat, after: seq<byte>)
    requires id < 0x1_0000 && length < 0x1_0000 && pen < 0x1_0000_0000
    ensures var s := before + (BE(id, 2) + BE(length, 2) + BE(pen, 4)) + after;
            && |s| >= |before| + 8
            && U16At(s, |before|) == id
            && U16At(s, |before| + 2) == length
            && U32At(s, |before| + 4) == pen
  {
    hide BE, U16At, U32At;
    var s := before + (BE(id, 2) + BE(length, 2) + BE(pen, 4)) + after;
    PlainSpecifierReads(before, id, length, BE(pen, 4) + after);
    assert s == before + (BE(id, 2) + BE(length, 2)) + (BE(pen, 4) + after);
    U32Reads(before + BE(id, 2) + BE(length, 2), pen, after);
    assert s == before + BE(id, 2) + BE(length, 2) + BE(pen, 4) + after;
  }

  /** Any field specifier, wherever it stands, reads back as the field it describes. */
  lemma SpecifierReads(t: Template, f: ResolvedField, before: seq<byte>, after: seq<byte>)
    requires FieldIsUnderstood(t, f)
    ensures ParseField(before + Specifier(f) + after, t.protocol.Version(), |before|) ==
            Ok((DescribeField(f), |before| + SpecifierLen(f)))
  {
    hide BE, U16At, U32At, NameOf, LogicalName;
    if f.pen.Some? {
      EnterpriseSpecifierReads(before, WithEnterpriseBit(f.id), f.length, f.pen.value, after);
    } else {
      PlainSpecifierReads(before, f.id, f.length, after);
    }
  }

  lemma FlatSplit(chunks: seq<seq<byte>>, i: nat, n: nat) returns (rest: seq<byte>)
    requires i < n <= |chunks|
    ensures Flat(chunks, n) == Flat(chunks, i) + chunks[i] + rest
  {
    ChunkAtItsOffset(chunks, n, i);
    FlatLenIsMonotone(chunks, i, n);
    FlatPrefix(chunks, i, n);
    rest := Flat(chunks, n)[FlatLen(chunks, i + 1)..];
    var s, a, b := Flat(chunks, n), FlatLen(chunks, i), FlatLen(chunks, i + 1);
    assert s == s[..a] + s[a..b] + s[b..];
  }

  lemma {:induction false} FlatPrefix(chunks: seq<seq<byte>>, i: nat, n: nat)
    requires i <= n <= |chunks|
    ensures FlatLen(chunks, i) <= |Flat(chunks, n)|
    ensures Flat(chunks, n)[..FlatLen(chunks, i)] == Flat(chunks, i)
  {
    if i < n {
      FlatPrefix(chunks, i, n - 1);
      FlatLenIsMonotone(chunks, i, n - 1);
    }
  }

  /** A template record followed by any run of zeros. */
  function Padded(t: Template, zeros: nat): seq<byte> {
    TemplateRecord(t) + Zeros(zeros)
  }

  /** The body of a template set: the template record, then its padding. */
  function TemplateBody(t: Template): seq<byte> {
    Padded(t, TemplatePadding(t))
  }

  lemma BodyAroundSpecifier(t: Template, zeros: nat, i: nat) returns (before: seq<byte>, after: seq<byte>)
    requires i < |t.fields|
    ensures |before| == 4 + SpecifiersLen(t.fields, i)
    ensures Padded(t, zeros) == before + Specifier(t.fields[i]) + after
  {
    hide BE, Zeros, Specifier, Flat;
    var chunks := SpecifierChunks(t.fields);
    var rest := FlatSplit(chunks, i, |t.fields|);
    SpecifierOffsets(t.fields, i);
    before := BE(t.templateId, 2) + BE(|t.fields|, 2) + Flat(chunks, i);
    after := rest + Zeros(zeros);
  }

  lemma {:induction false} SpecifiersRead(t: Template, zeros: nat, n: nat)
    requires Understood(t) && n <= |t.fields|
    ensures |Padded(t, zeros)| >= 4
    ensures ParseFields(Padded(t, zeros), t.protocol.Version(), 4, n) ==
            Ok((DescribeFields(t.fields)[..n], 4 + SpecifiersLen(t.fields, n)))
  {
    hide *;
    UnderstoodMeans(t);
    PaddedHead(t, zeros);
    if n == 0 {
      NoSpecifiers(t, Padded(t, zeros));
    } else {
      SpecifiersRead(t, zeros, n - 1);
      var before, after := BodyAroundSpecifier(t, zeros, n - 1);
      SpecifierReads(t, t.fields[n - 1], before, after);
      ParseOneMore(Padded(t, zeros), t.protocol.Version(), 4, n, DescribeFields(t.fields)[..n - 1],
                   4 + SpecifiersLen(t.fields, n - 1), DescribeField(t.fields[n - 1]), 4 + SpecifiersLen(t.fields, n));
      assert DescribeFields(t.fields)[..n] == DescribeFields(t.fields)[..n - 1] + [DescribeField(t.fields[n - 1])];
    }
  }

  lemma UnderstoodMeans(t: Template)
    requires Understood(t)
    ensures Exportable(t)
    ensures forall i :: 0 <= i < |t.fields| ==> FieldIsUnderstood(t, t.fields[i])
    ensures forall i :: 0 <= i < |t.fields| ==>
              SpecifiersLen(t.fields, i + 1) == SpecifiersLen(t.fields, i) + SpecifierLen(t.fields[i])
  {
    hide FieldIsUnderstood, Exportable, SpecifierLen;
  }

  lemma NoSpecifiers(t: Template, body: seq<byte>)
    requires |body| >= 4
    ensures SpecifiersLen(t.fields, 0) == 0
    ensures ParseFields(body, t.protocol.Version(), 4, 0) == Ok((DescribeFields(t.fields)[..0], 4))
  {
    hide DescribeFields;
  }

  lemma ParseOneMore(payload: seq<byte>, version: nat, start: nat, n: nat, fields: seq<CField>, at: nat,
                     field: CField, next: nat)
    requires start <= |payload| && n > 0
    requires ParseFields(payload, version, start, n - 1) == Ok((fields, at))
    requires ParseField(payload, version, at) == Ok((field, next))
    ensures ParseFields(payload, version, start, n) == Ok((fields + [field], next))
  {
    hide ParseField;
  }

  lemma PaddedHead(t: Template, zeros: nat)
    requires Exportable(t)
    ensures |Padded(t, zeros)| == 4 + SpecifiersLen(t.fields, |t.fields|) + zeros
    ensures U16At(Padded(t, zeros), 0) == t.templateId >= MIN_TEMPLATE_ID
    ensures U16At(Padded(t, zeros), 2) == |t.fields|
    ensures Padded(t, zeros)[4 + SpecifiersLen(t.fields, |t.fields|)..] == Zeros(zeros)
  {
    TemplateSetLen(t);
    hide BE, U16At, Flat, Zeros, FieldIsSound, Template.RecordFits, SpecifierChunks, SpecifiersLen;
    var specifiers, pad := Flat(SpecifierChunks(t.fields), |t.fields|), Zeros(zeros);
    PlainSpecifierReads([], t.templateId, |t.fields|, specifiers + pad);
    assert Padded(t, zeros) == [] + (BE(t.templateId, 2) + BE(|t.fields|, 2)) + (specifiers + pad);
  }

  lemma ZerosReadAsZero(payload: seq<byte>)
    requires |payload| >= 4 && payload[0..4] == Zeros(4)
    ensures U16At(payload, 0) == 0
  {
    assert payload[0..2] == payload[0..4][..2] == [0, 0];
    assert [0, 0][..1] == [0] && [0][..0] == [];
  }

  lemma NonzeroIdIsNotPadding(payload: seq<byte>)
    requires |payload| >= 4 && U16At(payload, 0) != 0
    ensures AtTemplate(payload, 0)
  {
    hide U16At, Zeros;
    if payload[0..4] == Zeros(4) {
      ZerosReadAsZero(payload);
    }
  }

  lemma PaddingIsNoTemplate(payload: seq<byte>, at: nat, zeros: nat)
    requires at <= |payload| && payload[at..] == Zeros(zeros)
    ensures !AtTemplate(payload, at)
  {
    if at + 4 <= |payload| {
      SliceOfTail(payload, at, 0, 4);
      assert Zeros(zeros)[0..4] == Zeros(4);
    }
  }

  /** A template record and any run of padding zeros decode to the template and nothing else. */
  lemma TemplateSetRoundTrip(t: Template, zeros: nat)
    requires Understood(t)
    ensures ParseTemplates(Padded(t, zeros), t.protocol.Version(), 0) == Ok([Describe(t)])
  {
    hide *;
    var body, version, next := Padded(t, zeros), t.protocol.Version(), 4 + SpecifiersLen(t.fields, |t.fields|);
    UnderstoodMeans(t);
    PaddedHead(t, zeros);
    TemplateIdsAreNotZero();
    NonzeroIdIsNotPadding(body);
    TemplateStep(body, version, 0);
    SpecifiersRead(t, zeros, |t.fields|);
    assert DescribeFields(t.fields)[..|t.fields|] == DescribeFields(t.fields);
    PaddingIsNoTemplate(body, next, zeros);
    NoTemplateLeft(body, version, next);
    DescribeMeans(t);
    assert [Describe(t)] + [] == [Describe(t)];
  }

  lemma TemplateIdsAreNotZero()
    ensures MIN_TEMPLATE_ID > 0
  {
  }

  lemma DescribeMeans(t: Template)
    ensures Describe(t) == CTemplate(t.templateId, DescribeFields(t.fields))
  {
  }

  // ---- Data sets ----

  function DataBody(t: Template, events: seq<ConntrackEvent>): seq<byte> {
    RecordsBytes(t, events) + Zeros(DataPadding(t, |events|))
  }

  lemma RecordIsAtItsPlace(t: Template, events: seq<ConntrackEvent>, k: nat, at: nat)
    requires Exportable(t) && k < |events| && at == k * t.recordSize
    ensures at + t.recordSize <= |DataBody(t, events)|
    ensures DataBody(t, events)[at..at + t.recordSize] == RecordBytes(t.fields, events[k])
  {
    hide RecordBytes, Zeros, DataPadding, Exportable, Flat, FlatLen;
    var chunks := RecordsChunks(t, events);
    RecordsLen(t, events, k);
    RecordsLen(t, events, k + 1);
    MulIsMonotone(k + 1, k + 1, t.recordSize);
    ChunkAtItsOffset(chunks, |events|, k);
    SliceOfLeft(RecordsBytes(t, events), Zeros(DataPadding(t, |events|)), at, at + t.recordSize);
  }

  lemma {:induction false} RecordsRead(t: Template, events: seq<ConntrackEvent>, n: nat)
    requires Understood(t) && n <= |events|
    ensures n * RecordSize(Describe(t)) <= |DataBody(t, events)|
    ensures DecodeRecords(DataBody(t, events), Describe(t), n) == Ok(FlowsOf(t, events)[..n])
  {
    hide DataBody, RecordBytes, DecodeFields, Describe, FlowOf, Exportable, FieldIsUnderstood, RecordSize;
    if n > 0 {
      RecordsRead(t, events, n - 1);
      RecordRoundTrip(t, events[n - 1]);
      RecordIsAtItsPlace(t, events, n - 1, (n - 1) * t.recordSize);
      MulIsMonotone(n, n, t.recordSize);
      assert FlowsOf(t, events)[..n] == FlowsOf(t, events)[..n - 1] + [FlowOf(t, events[n - 1])];
    }
  }

  /** The padding is shorter than a record, so the collector counts exactly the records written. */
  lemma PaddingIsNoRecord(t: Template, events: seq<ConntrackEvent>)
    requires Exportable(t)
    ensures WholeRecords(DataBody(t, events), t.recordSize) == |events|
  {
    hide WholeRecords, RecordsBytes, Zeros, AlignUp, FieldIsSound;
    DataSetLen(t, events);
    var n := WholeRecords(DataBody(t, events), t.recordSize);
    var size := |DataBody(t, events)|;
    assert |events| * t.recordSize <= size < |events| * t.recordSize + t.recordSize;
    DivModUnique(size, t.recordSize, n, size - n * t.recordSize);
    DivModUnique(size, t.recordSize, |events|, size - |events| * t.recordSize);
  }

  lemma DescribedSize(t: Template)
    requires Exportable(t)
    ensures RecordSize(Describe(t)) == t.recordSize > 0
  {
    hide AlignUp, FieldIsSound;
    DescribedOffsets(t.fields, |t.fields|);
  }

  /** A data set decodes to exactly the flows of its events, in order. */
  lemma DataSetRoundTrip(t: Template, events: seq<ConntrackEvent>)
    requires Understood(t)
    ensures ParseRecords(DataBody(t, events), Describe(t)) == Ok(FlowsOf(t, events))
  {
    hide DataBody, DecodeRecords, WholeRecords, FlowsOf, Exportable, FieldIsUnderstood, RecordSize, Describe;
    DescribedSize(t);
    PaddingIsNoRecord(t, events);
    RecordsRead(t, events, |events|);
    assert FlowsOf(t, events)[..|events|] == FlowsOf(t, events);
  }

  // ---- Walking the sets of a message ----

  /** One well-formed set, wherever it stands, is read whole and the walk goes on behind it. */
  lemma OneSet(before: seq<byte>, id: nat, body: seq<byte>, after: seq<byte>, version: nat, templateSetId: nat, g: Gathered)
    requires id < 0x1_0000 && SET_HEADER_LEN + |body| < 0x1_0000
    requires ReadSet(g, version, templateSetId, id, body).Ok?
    ensures ReadSets(before + SetBytes(id, body) + after, version, templateSetId, |before|, g) ==
            ReadSets(before + SetBytes(id, body) + after, version, templateSetId, |before| + |SetBytes(id, body)|,
                     ReadSet(g, version, templateSetId, id, body).value)
  {
    hide BE, U16At, ReadSet;
    var s := before + SetBytes(id, body) + after;
    PlainSpecifierReads(before, id, SET_HEADER_LEN + |body|, body + after);
    assert s == before + (BE(id, 2) + BE(SET_HEADER_LEN + |body|, 2)) + (body + after);
    assert s[|before| + 4..|before| + 4 + |body|] == body;
  }

  lemma NoMoreSets(datagram: seq<byte>, version: nat, templateSetId: nat, g: Gathered)
    ensures ReadSets(datagram, version, templateSetId, |datagram|, g) == SetsRead(g, None)
  {
  }

  // ---- Headers ----

  lemma IpfixHeaderReads(length: nat, stamp: Stamp, sequence: u32, domain: u32, body: seq<byte>)
    requires length < 0x1_0000
    ensures var s := IpfixHeader(length, stamp, sequence, domain) + body;
            && U16At(s, 0) == 10 && U16At(s, 2) == length
            && U32At(s, 4) == stamp.unixSecs && U32At(s, 8) == sequence && U32At(s, 12) == domain
  {
    hide BE, U16At, U32At;
    var a, b, c, d, e := BE(10, 2), BE(length, 2), BE(stamp.unixSecs, 4), BE(sequence, 4), BE(domain, 4);
    var s := a + b + c + d + e + body;
    U16Reads([], 10, b + c + d + e + body);
    assert s == [] + a + (b + c + d + e + body);
    U16Reads(a, length, c + d + e + body);
    assert s == a + b + (c + d + e + body);
    U32Reads(a + b, stamp.unixSecs, d + e + body);
    assert s == a + b + c + (d + e + body);
    U32Reads(a + b + c, sequence, e + body);
    assert s == a + b + c + d + (e + body);
    U32Reads(a + b + c + d, domain, body);
  }

  lemma Netflow9HeaderReads(total: nat, stamp: Stamp, sequence: u32, domain: u32, body: seq<byte>)
    requires total < 0x1_0000
    ensures var s := Netflow9Header(total, stamp, sequence, domain) + body;
            && U16At(s, 0) == 9 && U16At(s, 2) == total && U32At(s, 4) == stamp.uptimeMs
            && U32At(s, 8) == stamp.unixSecs && U32At(s, 12) == sequence && U32At(s, 16) == domain
  {
    hide BE, U16At, U32At;
    var a, b, u := BE(9, 2), BE(total, 2), BE(stamp.uptimeMs, 4);
    var c, d, e := BE(stamp.unixSecs, 4), BE(sequence, 4), BE(domain, 4);
    var s := a + b + u + c + d + e + body;
    U16Reads([], 9, b + u + c + d + e + body);
    assert s == [] + a + (b + u + c + d + e + body);
    U16Reads(a, total, u + c + d + e + body);
    assert s == a + b + (u + c + d + e + body);
    U32Reads(a + b, stamp.uptimeMs, c + d + e + body);
    assert s == a + b + u + (c + d + e + body);
    U32Reads(a + b + u, stamp.unixSecs, d + e + body);
    assert s == a + b + u + c + (d + e + body);
    U32Reads(a + b + u + c, sequence, e + body);
    assert s == a + b + u + c + d + (e + body);
    U32Reads(a + b + u + c + d, domain, body);
  }

  /** The v9 Count field: templates plus data records. IPFIX has none. */
  function ExpectedCount(t: Template, withTemplate: bool, n: nat): Option<nat> {
    if t.protocol.Ipfix? then None else Some(RecordTotal(withTemplate, n))
  }

  lemma HeadRoundTrip(t: Template, total: nat, stamp: Stamp, sequence: u32, domain: u32, body: seq<byte>)
    requires total < 0x1_0000 && t.protocol.HeaderLen() + |body| < 0x1_0000
    ensures ReadHead(Header(t.protocol, |body|, total, stamp, sequence, domain) + body) ==
            Ok(Head(t.protocol.Version(), t.protocol.HeaderLen(), t.protocol.TemplateSetId(), stamp.unixSecs, sequence, domain,
                    if t.protocol.Ipfix? then None else Some(total)))
  {
    hide U16At, U32At, IpfixHeader, Netflow9Header;
    match t.protocol {
      case Ipfix => IpfixHeaderReads(16 + |body|, stamp, sequence, domain, body);
      case Netflow9 => Netflow9HeaderReads(total, stamp, sequence, domain, body);
    }
  }

  /** Every field of the header, where it stands in the bytes the encoder hands out. */
  lemma HeaderOnTheWire(t: Template, withTemplate: bool, stamp: Stamp, sequence: u32, domain: u32, events: seq<ConntrackEvent>)
    requires Exportable(t) && (events != [] ==> t.RecordFits(withTemplate, |events|))
    ensures var m := EncodeMessage(t, withTemplate, stamp, sequence, domain, events);
            && |m| >= t.protocol.HeaderLen()
            && (t.protocol.Ipfix? ==>
                  && U16At(m, 0) == 10 && U16At(m, 2) == |m|
                  && U32At(m, 4) == stamp.unixSecs && U32At(m, 8) == sequence && U32At(m, 12) == domain)
            && (t.protocol.Netflow9? ==>
                  && U16At(m, 0) == 9 && U16At(m, 2) == |events| + (if withTemplate then 1 else 0)
                  && U32At(m, 4) == stamp.uptimeMs && U32At(m, 8) == stamp.unixSecs
                  && U32At(m, 12) == sequence && U32At(m, 16) == domain)
  {
    CountFitsSixteenBits(t, withTemplate, |events|);
    SetsAreAlignedAndFit(t, withTemplate, |events|);
    MessageIsTiled(t, withTemplate, stamp, sequence, domain, events);
    hide U16At, U32At, IpfixHeader, Netflow9Header, BodyBytes, Exportable, Template.RecordFits;
    var body := BodyBytes(t, withTemplate, events);
    match t.protocol {
      case Ipfix => IpfixHeaderReads(16 + |body|, stamp, sequence, domain, body);
      case Netflow9 => Netflow9HeaderReads(RecordTotal(withTemplate, |events|), stamp, sequence, domain, body);
    }
  }

  /** What follows the last record is zeros, and fewer than the alignment. */
  lemma PaddingIsZero(t: Template, withTemplate: bool, stamp: Stamp, sequence: u32, domain: u32, events: seq<ConntrackEvent>)
    requires Exportable(t) && events != []
    ensures var m := EncodeMessage(t, withTemplate, stamp, sequence, domain, events);
            var padding := t.DataSetSize(|events|) - SET_HEADER_LEN - |events| * t.recordSize;
            && 0 <= padding < t.protocol.SetAlignment() && padding <= |m|
            && forall i :: |m| - padding <= i < |m| ==> m[i] == 0
  {
    hide AlignUp, Header, TemplatePart, RecordsBytes, Exportable, BE;
    var m := EncodeMessage(t, withTemplate, stamp, sequence, domain, events);
    var pad := Zeros(DataPadding(t, |events|));
    var n := |m| - |pad|;
    assert m[n..] == pad;
    assert forall i :: n <= i < |m| ==> m[i] == m[n..][i - n];
  }

  // ---- Whole messages ----

  /** The collector's table once the message has been read. */
  function TableAfter(table: Table, t: Template, withTemplate: bool): Table {
    if withTemplate then table[t.templateId := Describe(t)] else table
  }

  /** Without its template a data set is skipped, not an error. */
  function Delivered(table: Table, t: Template, events: seq<ConntrackEvent>): seq<FlowRecord> {
    if t.templateId in table then FlowsOf(t, events) else []
  }

  lemma TemplateSetIsRead(t: Template, g: Gathered)
    requires Understood(t)
    ensures ReadSet(g, t.protocol.Version(), t.protocol.TemplateSetId(), t.protocol.TemplateSetId(), TemplateBody(t)) ==
            Ok(Gathered(g.table[t.templateId := Describe(t)], g.templates + [Describe(t)], g.records))
  {
    hide Padded, ParseTemplates, Describe, Exportable, FieldIsUnderstood;
    TemplateSetRoundTrip(t, TemplatePadding(t));
    RegisterOne(g.table, Describe(t));
    DescribedId(t);
  }

  lemma DescribedId(t: Template)
    ensures Describe(t).templateId == t.templateId
  {
  }

  lemma RegisterOne(table: Table, t: CTemplate)
    ensures Register(table, [t]) == table[t.templateId := t]
  {
    assert [t][..0] == [];
  }

  lemma DataSetIsRead(t: Template, events: seq<ConntrackEvent>, g: Gathered)
    requires Understood(t)
    requires t.templateId in g.table ==> g.table[t.templateId] == Describe(t)
    ensures ReadSet(g, t.protocol.Version(), t.protocol.TemplateSetId(), t.templateId, DataBody(t, events)) ==
            Ok(g.(records := g.records + Delivered(g.table, t, events)))
  {
    hide DataBody, ParseRecords, Describe, FlowsOf, FieldIsUnderstood, AlignUp;
    DataSetRoundTrip(t, events);
    assert g.records + [] == g.records;
  }

  lemma DataPartMeans(t: Template, events: seq<ConntrackEvent>, table: Table)
    requires Exportable(t)
    ensures events == [] ==> DataPart(t, events) == [] && Delivered(table, t, events) == []
    ensures events != [] ==> DataPart(t, events) == SetBytes(t.templateId, DataBody(t, events))
    ensures |SetBytes(t.templateId, DataBody(t, events))| == SET_HEADER_LEN + |DataBody(t, events)|
    ensures t.templateId < 0x1_0000
  {
    hide DataBody, DataSet, AlignUp, FieldIsSound;
    PartsAreSets(t, events);
  }

  lemma PartsAreSets(t: Template, events: seq<ConntrackEvent>)
    ensures TemplateSet(t) == SetBytes(t.protocol.TemplateSetId(), TemplateBody(t))
    ensures DataSet(t, events) == SetBytes(t.templateId, DataBody(t, events))
  {
    hide SetBytes;
  }

  lemma TemplatePartIsRead(t: Template, withTemplate: bool, header: seq<byte>, after: seq<byte>, table: Table)
    requires Understood(t)
    ensures var version, setId, tp := t.protocol.Version(), t.protocol.TemplateSetId(), TemplatePart(t, withTemplate);
            ReadSets(header + tp + after, version, setId, |header|, Gathered(table, [], [])) ==
            ReadSets(header + tp + after, version, setId, |header + tp|,
                     Gathered(TableAfter(table, t, withTemplate), if withTemplate then [Describe(t)] else [], []))
  {
    hide SetBytes, TemplateBody, ReadSet, Describe, ReadSets, TemplateSet, Understood;
    var version, setId := t.protocol.Version(), t.protocol.TemplateSetId();
    if withTemplate {
      var g := Gathered(table, [], []);
      PartsAreSets(t, []);
      TemplateSetIsShort(t);
      TemplateSetIsRead(t, g);
      assert [] + [Describe(t)] == [Describe(t)];
      OneSet(header, setId, TemplateBody(t), after, version, setId, g);
    }
  }

  lemma TemplateSetIsShort(t: Template)
    requires Understood(t)
    ensures SET_HEADER_LEN + |TemplateBody(t)| == |TemplateSet(t)| == t.SetSize() <= MAX_MSG_SIZE
  {
    hide AlignUp, FieldIsUnderstood, FieldIsSound, TemplateRecord, Zeros, BE;
    TemplateSetLen(t);
    TemplateFits(t, true);
  }

  lemma DataPartIsRead(t: Template, before: seq<byte>, events: seq<ConntrackEvent>, g: Gathered)
    requires Understood(t) && g.records == []
    requires |before| + |DataPart(t, events)| < 0x1_0000
    requires t.templateId in g.table ==> g.table[t.templateId] == Describe(t)
    ensures ReadSets(before + DataPart(t, events), t.protocol.Version(), t.protocol.TemplateSetId(), |before|, g) ==
            SetsRead(g.(records := Delivered(g.table, t, events)), None)
  {
    hide *;
    UnderstoodMeans(t);
    DataPartMeans(t, events, g.table);
    var version, setId, s := t.protocol.Version(), t.protocol.TemplateSetId(), before + DataPart(t, events);
    var next := g.(records := Delivered(g.table, t, events));
    if events == [] {
      assert s == before;
    } else {
      DataSetIsRead(t, events, g);
      assert [] + Delivered(g.table, t, events) == Delivered(g.table, t, events);
      assert s == before + SetBytes(t.templateId, DataBody(t, events)) + [];
      OneSet(before, t.templateId, DataBody(t, events), [], version, setId, g);
    }
    NoMoreSets(s, version, setId, next);
  }

  /** Walking the sets behind a header gathers the template, when there is one, and the delivered flows. */
  lemma BodyRoundTrip(t: Template, withTemplate: bool, header: seq<byte>, events: seq<ConntrackEvent>, table: Table)
    requires Understood(t)
    requires |header + BodyBytes(t, withTemplate, events)| < 0x1_0000
    requires !withTemplate && t.templateId in table ==> table[t.templateId] == Describe(t)
    ensures ReadSets(header + BodyBytes(t, withTemplate, events), t.protocol.Version(), t.protocol.TemplateSetId(), |header|,
                     Gathered(table, [], [])) ==
            SetsRead(Gathered(TableAfter(table, t, withTemplate), if withTemplate then [Describe(t)] else [],
                              Delivered(TableAfter(table, t, withTemplate), t, events)), None)
  {
    hide TemplatePart, DataPart, Describe, ReadSets, Understood, Delivered;
    var tp, dp := TemplatePart(t, withTemplate), DataPart(t, events);
    assert header + BodyBytes(t, withTemplate, events) == header + tp + dp;
    var g := Gathered(TableAfter(table, t, withTemplate), if withTemplate then [Describe(t)] else [], []);
    TemplatePartIsRead(t, withTemplate, header, dp, table);
    DataPartIsRead(t, header + tp, events, g);
  }

  /**
   * The round trip. For any template the collector understands and any events `add_record` accepted, decoding
   * the message yields the same template, exactly those events' flows in order, and the header values.
   */
  lemma MessageDecodes(t: Template, withTemplate: bool, stamp: Stamp, sequence: u32, domain: u32,
                       events: seq<ConntrackEvent>, table: Table)
    requires Understood(t)
    requires events != [] ==> t.RecordFits(withTemplate, |events|)
    requires !withTemplate && t.templateId in table ==> table[t.templateId] == Describe(t)
    ensures DecodeDatagram(EncodeMessage(t, withTemplate, stamp, sequence, domain, events), table) ==
            Decoded(TableAfter(table, t, withTemplate),
                    Ok(Export(t.protocol.Version(), sequence, domain, stamp.unixSecs,
                              ExpectedCount(t, withTemplate, |events|),
                              if withTemplate then [Describe(t)] else [],
                              Delivered(TableAfter(table, t, withTemplate), t, events))))
  {
    hide ReadHead, ReadSets, BodyBytes, Header, Describe, Delivered, TableAfter, FieldIsUnderstood, Exportable, AlignUp;
    var body := BodyBytes(t, withTemplate, events);
    var total := RecordTotal(withTemplate, |events|);
    var header := Header(t.protocol, |body|, total, stamp, sequence, domain);
    MessageIsTiled(t, withTemplate, stamp, sequence, domain, events);
    SetsAreAlignedAndFit(t, withTemplate, |events|);
    CountFitsSixteenBits(t, withTemplate, |events|);
    HeadRoundTrip(t, total, stamp, sequence, domain, body);
    BodyRoundTrip(t, withTemplate, header, events, table);
  }
}
