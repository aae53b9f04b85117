/** The message encoder: one reused buffer, a deferred data set header and lengths patched at the end. */
module Encoder {
  import opened Bytes
  import opened Event
  import opened Template
  import opened Record
  import opened Message

  /** A checked conversion to u16, used for set and message lengths. */
  function MessageLen16(value: nat): (r: u16)
    requires value <= 0xFFFF
    ensures r == value
  {
    value
  }

  function WrappingAdd(a: u32, b: nat): u32 {
    (a + b) % 0x1_0000_0000
  }

  /** IPFIX counts exported data records, v9 counts exported packets. */
  function NextSequence(p: Protocol, sequence: u32, records: nat): u32 {
    match p
    case Ipfix => WrappingAdd(sequence, records)
    case Netflow9 => WrappingAdd(sequence, 1)
  }

  // ---- A message under construction ----

  /** The data set before it is closed: a zero length placeholder, and no padding yet. */
  function OpenDataSet(t: Template, events: seq<ConntrackEvent>): seq<byte> {
    if events == [] then [] else BE(t.templateId, 2) + BE(0, 2) + RecordsBytes(t, events)
  }

  function OpenDataLen(t: Template, n: nat): nat {
    if n == 0 then 0 else SET_HEADER_LEN + n * t.recordSize
  }

  /** Accepting one more record only appends to the open data set. */
  lemma OpenDataSetGrows(t: Template, events: seq<ConntrackEvent>, e: ConntrackEvent)
    ensures OpenDataSet(t, events + [e]) ==
            OpenDataSet(t, events) + (if events == [] then BE(t.templateId, 2) + BE(0, 2) else []) + RecordBytes(t.fields, e)
  {
    hide RecordBytes, BE;
    var chunks := RecordsChunks(t, events);
    assert RecordsChunks(t, events + [e]) == chunks + [RecordBytes(t.fields, e)];
    FlatOfPrefix(chunks, [RecordBytes(t.fields, e)], |events|);
    assert RecordsBytes(t, events + [e]) == RecordsBytes(t, events) + RecordBytes(t.fields, e);
  }

  lemma OpenBytesGrow(t: Template, before: seq<byte>, events: seq<ConntrackEvent>, e: ConntrackEvent)
    ensures events == [] ==>
              before + OpenDataSet(t, events + [e]) ==
              before + OpenDataSet(t, events) + BE(t.templateId, 2) + BE(0, 2) + RecordBytes(t.fields, e)
    ensures events != [] ==>
              before + OpenDataSet(t, events + [e]) == before + OpenDataSet(t, events) + RecordBytes(t.fields, e)
  {
    hide *;
    OpenDataSetGrows(t, events, e);
  }

  /** The capacity test in terms of the write cursor, as `add_record` computes it. */
  lemma RoomForOneMore(t: Template, withTemplate: bool, n: nat)
    ensures OpenDataLen(t, n + 1) == OpenDataLen(t, n) + (if n == 0 then SET_HEADER_LEN else 0) + t.recordSize
    ensures t.RecordFits(withTemplate, n + 1) <==>
              t.DataStart(withTemplate) + OpenDataLen(t, n + 1) + (t.protocol.SetAlignment() - 1) <= MAX_MSG_SIZE
    ensures t.protocol.HeaderLen() <= t.DataStart(withTemplate)
    ensures OpenDataLen(t, 0) == 0
  {
    hide AlignUp;
    MulIsMonotone(n + 1, n + 1, t.recordSize);
  }

  /** Padding the open set and patching its length makes it the set the protocol asks for. */
  lemma ClosingTheDataSet(t: Template, before: seq<byte>, events: seq<ConntrackEvent>)
    requires Exportable(t) && events != []
    ensures var body := RecordsBytes(t, events) + Zeros(DataPadding(t, |events|));
            var padded := before + OpenDataSet(t, events) + Zeros(DataPadding(t, |events|));
            && |before| + 4 <= |padded|
            && Splice(padded, |before| + 2, BE(SET_HEADER_LEN + |body|, 2)) == before + DataSet(t, events)
  {
    hide RecordsBytes, BE, Zeros;
    var id, zero, records, pad := BE(t.templateId, 2), BE(0, 2), RecordsBytes(t, events), Zeros(DataPadding(t, |events|));
    PatchLength(before, id, zero, BE(SET_HEADER_LEN + |records + pad|, 2), records + pad);
    assert before + (id + zero + records) + pad == before + id + zero + (records + pad);
  }

  lemma PatchLength(before: seq<byte>, id: seq<byte>, stale: seq<byte>, patched: seq<byte>, rest: seq<byte>)
    requires |id| == |stale| == |patched| == 2
    ensures Splice(before + id + stale + rest, |before| + 2, patched) == before + (id + patched + rest)
  {
    var s := before + id + stale + rest;
    assert s[..|before| + 2] == before + id;
    assert s[|before| + 4..] == rest;
  }

  class Encoder {
    const buf: array<byte>
    const template: Template
    const observationDomainId: u32
    var offset: nat
    var recordCount: nat
    var dataSetOffset: nat
    var dataSetOpen: bool
    var templateIncluded: bool
    var sequenceNumber: u32
    var saturatedCounters: nat

    /** The events accepted into the current message. */
    ghost var events: seq<ConntrackEvent>

    ghost predicate Sized() {
      buf.Length == MAX_MSG_SIZE && Exportable(template)
    }

    /** Everything written since the header space was reserved. */
    ghost function Written(): seq<byte>
      reads this`offset, buf
    {
      if template.protocol.HeaderLen() <= offset <= buf.Length
      then buf[template.protocol.HeaderLen()..offset]
      else []
    }

    /** A message has been begun and not yet finalised. */
    ghost predicate Open()
      reads this, buf
    {
      && Sized()
      && recordCount == |events|
      && (dataSetOpen <==> events != [])
      && (dataSetOpen ==> dataSetOffset == template.DataStart(templateIncluded))
      && (dataSetOpen ==> template.RecordFits(templateIncluded, |events|))
      && offset == template.DataStart(templateIncluded) + OpenDataLen(template, |events|) <= MAX_MSG_SIZE
      && Written() == TemplatePart(template, templateIncluded) + OpenDataSet(template, events)
    }

    lemma OpenMeans()
      ensures Open() <==>
              && Sized()
              && recordCount == |events|
              && (dataSetOpen <==> events != [])
              && (dataSetOpen ==> dataSetOffset == template.DataStart(templateIncluded))
              && (dataSetOpen ==> template.RecordFits(templateIncluded, |events|))
              && offset == template.DataStart(templateIncluded) + OpenDataLen(template, |events|) <= MAX_MSG_SIZE
              && Written() == TemplatePart(template, templateIncluded) + OpenDataSet(template, events)
      ensures Sized() ==> Exportable(template) && buf.Length == MAX_MSG_SIZE == 1472
    {
      hide Template.DataStart, Template.RecordFits, Written, OpenDataLen, TemplatePart, OpenDataSet;
    }

    constructor (domain: u32, t: Template)
      requires Exportable(t)
      ensures Sized() && fresh(buf)
      ensures template == t && observationDomainId == domain
      ensures events == [] && sequenceNumber == 0 && saturatedCounters == 0
      ensures !templateIncluded && recordCount == 0
    {
      buf := new byte[MAX_MSG_SIZE](_ => 0);
      template, observationDomainId := t, domain;
      offset, recordCount, dataSetOffset := 0, 0, 0;
      dataSetOpen, templateIncluded := false, false;
      sequenceNumber, saturatedCounters := 0, 0;
      events := [];
    }

    /** `put_u16` and `put_u32` copy their big-endian bytes at the cursor and advance it. */
    method Put(bytes: seq<byte>)
      requires Sized() && template.protocol.HeaderLen() <= offset
      requires offset + |bytes| <= MAX_MSG_SIZE
      modifies this`offset, buf
      ensures offset == old(offset) + |bytes|
      ensures Written() == old(Written()) + bytes
    {
      hide Exportable, Splice;
      CopyFromSlice(buf, offset, bytes);
      SpliceExtends(old(buf[..]), template.protocol.HeaderLen(), offset, bytes);
      offset := offset + |bytes|;
    }

    /** Append zeros until the cursor is a multiple of the alignment. */
    method PadSet()
      requires Sized() && template.protocol.HeaderLen() <= offset
      requires AlignUp(offset, template.protocol.SetAlignment()) <= MAX_MSG_SIZE
      modifies this`offset, buf
      ensures offset == AlignUp(old(offset), template.protocol.SetAlignment())
      ensures Written() == old(Written()) + Zeros(offset - old(offset))
    {
      hide Exportable, AlignUp;
      var padded := AlignUp(offset, template.protocol.SetAlignment());
      Put(Zeros(padded - offset));
    }

    /** One field specifier, with its enterprise number when it has one. */
    method PutSpecifier(f: ResolvedField)
      requires Sized() && template.protocol.HeaderLen() <= offset
      requires offset + SpecifierLen(f) <= MAX_MSG_SIZE
      modifies this`offset, buf
      ensures offset == old(offset) + SpecifierLen(f)
      ensures Written() == old(Written()) + Specifier(f)
    {
      hide Exportable, BE;
      if f.pen.Some? {
        Put(BE(WithEnterpriseBit(f.id), 2));
        Put(BE(f.length, 2));
        Put(BE(f.pen.value, 4));
      } else {
        Put(BE(f.id, 2));
        Put(BE(f.length, 2));
      }
    }

    method PutSpecifiers()
      requires Sized() && template.protocol.HeaderLen() <= offset
      requires offset + SpecifiersLen(template.fields, |template.fields|) <= MAX_MSG_SIZE
      modifies this`offset, buf
      ensures offset == old(offset) + SpecifiersLen(template.fields, |template.fields|)
      ensures Written() == old(Written()) + Flat(SpecifierChunks(template.fields), |template.fields|)
    {
      hide *;
      ghost var was, chunks := Written(), SpecifierChunks(template.fields);
      FlatStart(was, chunks);
      SpecifierOffsets(template.fields, |template.fields|);
      for i := 0 to |template.fields|
        invariant offset == old(offset) + FlatLen(chunks, i) <= MAX_MSG_SIZE
        invariant Written() == was + Flat(chunks, i)
      {
        FlatStep(was, chunks, i);
        FlatLenIsMonotone(chunks, i + 1, |template.fields|);
        PutSpecifier(template.fields[i]);
      }
    }

    method WriteTemplateSet()
      requires Sized() && offset == template.protocol.HeaderLen()
      modifies this`offset, buf
      ensures offset == template.DataStart(true) <= MAX_MSG_SIZE
      ensures Written() == TemplateSet(template)
    {
      hide *;
      NothingWritten();
      TemplateEndsAligned(template);
      TemplateSetPieces(template);
      Put(BE(template.protocol.TemplateSetId(), 2));
      assert Written() == BE(template.protocol.TemplateSetId(), 2);
      Put(BE(MessageLen16(template.SetSize()), 2));
      Put(BE(template.templateId, 2));
      Put(BE(MessageLen16(|template.fields|), 2));
      PutSpecifiers();
      PadSet();
    }

    lemma WrittenIs()
      requires template.protocol.HeaderLen() <= offset <= buf.Length
      ensures Written() == buf[template.protocol.HeaderLen()..offset]
    {
    }

    lemma NothingWritten()
      requires Sized() && offset == template.protocol.HeaderLen()
      ensures Written() == [] && Exportable(template)
    {
    }

    method BeginMessage(includeTemplate: bool)
      requires Sized()
      modifies this`offset, this`recordCount, this`dataSetOpen, this`templateIncluded, this`events, buf
      ensures Open()
      ensures events == [] && templateIncluded == includeTemplate
    {
      hide TemplateSet, AlignUp;
      recordCount := 0;
      dataSetOpen := false;
      templateIncluded := includeTemplate;
      events := [];
      offset := template.protocol.HeaderLen();
      if includeTemplate {
        WriteTemplateSet();
      }
    }

    /** Accepts a record exactly when it fits with worst-case padding; a refusal changes nothing at all. */
    method AddRecord(e: ConntrackEvent) returns (added: bool)
      requires Open()
      modifies this, buf
      ensures added <==> template.RecordFits(templateIncluded, old(|events|) + 1)
      ensures !added ==> unchanged(this) && unchanged(buf)
      ensures added ==> events == old(events) + [e]
      ensures added ==> saturatedCounters == old(saturatedCounters) + Saturations(template.fields, |template.fields|, e)
      ensures Open()
      ensures templateIncluded == old(templateIncluded) && sequenceNumber == old(sequenceNumber)
    {
      hide Sized, Written, Template.DataStart, Template.RecordFits, OpenDataLen, TemplatePart, OpenDataSet;
      RoomForOneMore(template, templateIncluded, |events|);
      var paddingReserve := template.protocol.SetAlignment() - 1;
      var needed := if dataSetOpen then template.recordSize else SET_HEADER_LEN + template.recordSize;
      if offset + needed + paddingReserve > MAX_MSG_SIZE {
        return false;
      }
      AppendRecord(e);
      return true;
    }

    /** The accepting half of `add_record`. */
    method AppendRecord(e: ConntrackEvent)
      requires Open()
      requires template.RecordFits(templateIncluded, |events| + 1)
      modifies this, buf
      ensures Open()
      ensures events == old(events) + [e]
      ensures saturatedCounters == old(saturatedCounters) + Saturations(template.fields, |template.fields|, e)
      ensures templateIncluded == old(templateIncluded) && sequenceNumber == old(sequenceNumber)
    {
      hide *;
      OpenMeans();
      RecordLen(template, e);
      AlignmentIsPositive(template);
      RoomForOneMore(template, templateIncluded, |events|);
      OpenBytesGrow(template, TemplatePart(template, templateIncluded), events, e);
      if !dataSetOpen {
        dataSetOffset := offset;
        Put(BE(template.templateId, 2));
        Put(BE(0, 2));
        dataSetOpen := true;
      }
      var saturated := PutRecord(e);
      saturatedCounters := saturatedCounters + saturated;
      recordCount := recordCount + 1;
      events := events + [e];
      OpenMeans();
    }

    method PutRecord(e: ConntrackEvent) returns (saturated: nat)
      requires Sized() && template.protocol.HeaderLen() <= offset
      requires offset + |RecordBytes(template.fields, e)| <= MAX_MSG_SIZE
      modifies this`offset, buf
      ensures offset == old(offset) + |RecordBytes(template.fields, e)|
      ensures Written() == old(Written()) + RecordBytes(template.fields, e)
      ensures saturated == Saturations(template.fields, |template.fields|, e)
    {
      hide RecordBytes, Splice, AlignUp;
      SpliceExtends(buf[..], template.protocol.HeaderLen(), offset, RecordBytes(template.fields, e));
      offset, saturated := WriteRecord(buf, offset, template.fields, e);
    }

    predicate HasPendingOutput()
      reads this
    {
      recordCount > 0 || templateIncluded
    }

    /** Close the data set, if there is one: pad it, then patch the length that includes the padding. */
    method CloseDataSet()
      requires Open()
      modifies this`offset, buf
      ensures template.protocol.HeaderLen() <= offset == MessageLen(template, templateIncluded, |events|) <= MAX_MSG_SIZE
      ensures Written() == BodyBytes(template, templateIncluded, events)
    {
      SetsAreAlignedAndFit(template, templateIncluded, |events|);
      hide AlignUp, RecordsBytes, TemplatePart, OpenDataSet, Splice, DataSet, Exportable, Written;
      ghost var before := TemplatePart(template, templateIncluded);
      if dataSetOpen {
        PadAndPatch(before);
      } else {
        assert OpenDataSet(template, events) == [] == DataPart(template, events) by { EmptyDataSet(template); }
      }
    }

    method PadAndPatch(ghost before: seq<byte>)
      requires Open() && dataSetOpen && before == TemplatePart(template, templateIncluded)
      modifies this`offset, buf
      ensures offset == MessageLen(template, templateIncluded, |events|) <= MAX_MSG_SIZE
      ensures Written() == before + DataSet(template, events)
    {
      hide *;
      OpenMeans();
      ClosedLayout(template, templateIncluded, events);
      ClosingTheDataSet(template, before, events);
      PadSet();
      WrittenIs();
      ghost var padded := buf[..];
      var dataSetLen := MessageLen16(offset - dataSetOffset);
      CopyFromSlice(buf, dataSetOffset + 2, BE(dataSetLen, 2));
      SpliceInside(padded, template.protocol.HeaderLen(), dataSetOffset + 2, BE(dataSetLen, 2), offset);
      WrittenIs();
    }

    method WriteIpfixHeader(stamp: Stamp)
      requires Sized() && offset <= MAX_MSG_SIZE
      modifies buf
      ensures buf[..] == Splice(old(buf[..]), 0, IpfixHeader(offset, stamp, sequenceNumber, observationDomainId))
    {
      hide Splice, BE, Exportable;
      ghost var was := buf[..];
      var version, length, secs := BE(10, 2), BE(MessageLen16(offset), 2), BE(stamp.unixSecs, 4);
      var sequence, domain := BE(sequenceNumber, 4), BE(observationDomainId, 4);
      CopyFromSlice(buf, 0, version);
      CopyFromSlice(buf, 2, length);
      SpliceTwice(was, 0, version, length);
      CopyFromSlice(buf, 4, secs);
      SpliceTwice(was, 0, version + length, secs);
      CopyFromSlice(buf, 8, sequence);
      SpliceTwice(was, 0, version + length + secs, sequence);
      CopyFromSlice(buf, 12, domain);
      SpliceTwice(was, 0, version + length + secs + sequence, domain);
    }

    method WriteNetflow9Header(total: u16, stamp: Stamp)
      requires Sized()
      modifies buf
      ensures buf[..] == Splice(old(buf[..]), 0, Netflow9Header(total, stamp, sequenceNumber, observationDomainId))
    {
      hide Splice, BE, Exportable;
      ghost var was := buf[..];
      var version, count, uptime := BE(9, 2), BE(total, 2), BE(stamp.uptimeMs, 4);
      var secs, sequence, domain := BE(stamp.unixSecs, 4), BE(sequenceNumber, 4), BE(observationDomainId, 4);
      CopyFromSlice(buf, 0, version);
      CopyFromSlice(buf, 2, count);
      SpliceTwice(was, 0, version, count);
      CopyFromSlice(buf, 4, uptime);
      SpliceTwice(was, 0, version + count, uptime);
      CopyFromSlice(buf, 8, secs);
      SpliceTwice(was, 0, version + count + uptime, secs);
      CopyFromSlice(buf, 12, sequence);
      SpliceTwice(was, 0, version + count + uptime + secs, sequence);
      CopyFromSlice(buf, 16, domain);
      SpliceTwice(was, 0, version + count + uptime + secs + sequence, domain);
    }

    /**
     * The emitted bytes are a pure function of this message: nothing of an older one survives, whatever the
     * buffer held before.
     */
    method Finalize(stamp: Stamp) returns (data: seq<byte>, count: nat)
      requires Open()
      modifies this`offset, this`sequenceNumber, buf
      ensures Sized()
      ensures data == EncodeMessage(template, templateIncluded, stamp, old(sequenceNumber), observationDomainId, events)
      ensures |data| <= MAX_MSG_SIZE
      ensures count == |events|
      ensures sequenceNumber == NextSequence(template.protocol, old(sequenceNumber), |events|)
    {
      hide *;
      OpenMeans();
      ghost var body := BodyBytes(template, templateIncluded, events);
      CountFitsSixteenBits(template, templateIncluded, |events|);
      CloseDataSet();
      WrittenIs();
      count := recordCount;
      ghost var closed := buf[..];
      ghost var header := Header(template.protocol, |body|, RecordTotal(templateIncluded, |events|), stamp,
                                 sequenceNumber, observationDomainId);
      HeaderMeans(template, templateIncluded, stamp, sequenceNumber, observationDomainId, events);
      match template.protocol {
        case Ipfix =>
          WriteIpfixHeader(stamp);
          sequenceNumber := WrappingAdd(sequenceNumber, count);
        case Netflow9 =>
          var total := MessageLen16(count + if templateIncluded then 1 else 0);
          WriteNetflow9Header(total, stamp);
          sequenceNumber := WrappingAdd(sequenceNumber, 1);
      }
      SpliceAtFront(closed, header, offset);
      data := buf[..offset];
    }
  }

  lemma AlignmentIsPositive(t: Template)
    ensures t.protocol.SetAlignment() >= 1 && SET_HEADER_LEN == 4
  {
  }

  /** Where the data set ends once padded, and what its length field must say. */
  lemma ClosedLayout(t: Template, withTemplate: bool, events: seq<ConntrackEvent>)
    requires Exportable(t) && events != [] && t.RecordFits(withTemplate, |events|)
    ensures AlignUp(t.DataStart(withTemplate) + OpenDataLen(t, |events|), t.protocol.SetAlignment()) ==
            MessageLen(t, withTemplate, |events|) ==
            t.DataStart(withTemplate) + OpenDataLen(t, |events|) + DataPadding(t, |events|) <= MAX_MSG_SIZE
    ensures MessageLen(t, withTemplate, |events|) - t.DataStart(withTemplate) ==
            SET_HEADER_LEN + |RecordsBytes(t, events) + Zeros(DataPadding(t, |events|))|
    ensures |TemplatePart(t, withTemplate)| == t.DataStart(withTemplate) - t.protocol.HeaderLen()
    ensures OpenDataLen(t, |events|) >= 4 && MAX_MSG_SIZE == 1472
  {
    hide AlignUp, RecordsBytes, Zeros, TemplatePart, Template.DataStart, Template.RecordFits;
    SetsAreAlignedAndFit(t, withTemplate, |events|);
    MessageIsTiled(t, withTemplate, Stamp(0, 0), 0, 0, events);
    DataSetLen(t, events);
  }

  lemma EmptyDataSet(t: Template)
    ensures OpenDataSet(t, []) == [] == DataPart(t, [])
  {
  }

  lemma SpliceAtFront(s: seq<byte>, header: seq<byte>, to: nat)
    requires |header| <= to <= |s|
    ensures Splice(s, 0, header)[..to] == header + s[|header|..to]
  {
  }

  /** The template set needs at most the padding its announced size includes. */
  lemma TemplateEndsAligned(t: Template)
    requires Exportable(t)
    ensures AlignUp(t.protocol.HeaderLen() + 8 + SpecifiersLen(t.fields, |t.fields|), t.protocol.SetAlignment()) ==
            t.DataStart(true) <= MAX_MSG_SIZE
    ensures t.protocol.HeaderLen() + 8 + SpecifiersLen(t.fields, |t.fields|) + TemplatePadding(t) == t.DataStart(true)
    ensures t.SetSize() <= 0xFFFF && |t.fields| <= 0xFFFF
  {
    hide AlignUp;
    AlignTogether(t.protocol.HeaderLen(), 8 + SpecifiersLen(t.fields, |t.fields|), t.protocol.SetAlignment());
  }

  /** Which header each protocol puts in front of the same body, and what follows it in the sequence. */
  lemma HeaderMeans(t: Template, withTemplate: bool, stamp: Stamp, sequence: u32, domain: u32,
                    events: seq<ConntrackEvent>)
    ensures var body := BodyBytes(t, withTemplate, events);
            var total := RecordTotal(withTemplate, |events|);
            var header := Header(t.protocol, |body|, total, stamp, sequence, domain);
            && EncodeMessage(t, withTemplate, stamp, sequence, domain, events) == header + body
            && (t.protocol.Ipfix? ==>
                  && header == IpfixHeader(t.protocol.HeaderLen() + |body|, stamp, sequence, domain)
                  && NextSequence(t.protocol, sequence, |events|) == WrappingAdd(sequence, |events|))
            && (t.protocol.Netflow9? ==>
                  && header == Netflow9Header(total, stamp, sequence, domain)
                  && NextSequence(t.protocol, sequence, |events|) == WrappingAdd(sequence, 1))
  {
    hide BodyBytes, IpfixHeader, Netflow9Header;
  }
}
