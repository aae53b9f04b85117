/** The repository's own collector: what a receiver makes of an export datagram. */
module Collector {
  import opened Bytes

  const IPFIX_VERSION: nat := 10
  const NETFLOW9_VERSION: nat := 9
  const ENTERPRISE: nat := 0x8000

  /** Logical field names, shared by both protocols. */
  datatype ElementName =
    | OctetDeltaCount | PacketDeltaCount
    | ProtocolIdentifier
    | SourceTransportPort | SourceIPv4Address
    | DestinationTransportPort | DestinationIPv4Address
    | PostNATSourceIPv4Address | PostNATDestinationIPv4Address
    | PostNAPTSourceTransportPort | PostNAPTDestinationTransportPort
    | NatEventCode
    | ReverseOctetDeltaCount | ReversePacketDeltaCount
    | EnterpriseElement(pen: nat, id: nat)
    | UnknownElement(id: nat)
  {
    predicate IsAddress() {
      || SourceIPv4Address? || DestinationIPv4Address?
      || PostNATSourceIPv4Address? || PostNATDestinationIPv4Address?
    }
  }

  datatype Reading = Address(octets: seq<byte>) | Number(n: nat)

  type FlowRecord = map<ElementName, Reading>

  datatype CField = CField(name: ElementName, length: nat, elementId: nat, pen: Option<nat>)

  datatype CTemplate = CTemplate(templateId: nat, fields: seq<CField>)

  type Table = map<nat, CTemplate>

  datatype DecodeError =
    | DatagramTooShort | ShortHeader | LengthMismatch | UnknownVersion
    | SetTooShort | SetOverruns | SetIdReserved
    | TemplateOverruns | EnterpriseOverruns | EnterpriseUnderV9
    | ZeroByteRecord | BadAddressLength

  datatype Export = Export(
    version: nat,
    sequence: nat,
    domainId: nat,
    exportTime: nat,
    count: Option<nat>,
    templates: seq<CTemplate>,
    records: seq<FlowRecord>)

  // ---- Elements and values ----

  function RegistryName(pen: Option<nat>, id: nat): Option<ElementName> {
    match pen
    case None =>
      if id == 1 then Some(OctetDeltaCount)
      else if id == 2 then Some(PacketDeltaCount)
      else if id == 4 then Some(ProtocolIdentifier)
      else if id == 7 then Some(SourceTransportPort)
      else if id == 8 then Some(SourceIPv4Address)
      else if id == 11 then Some(DestinationTransportPort)
      else if id == 12 then Some(DestinationIPv4Address)
      else if id == 225 then Some(PostNATSourceIPv4Address)
      else if id == 226 then Some(PostNATDestinationIPv4Address)
      else if id == 227 then Some(PostNAPTSourceTransportPort)
      else if id == 228 then Some(PostNAPTDestinationTransportPort)
      else if id == 230 then Some(NatEventCode)
      else None
    case Some(n) =>
      if n == 29305 && id == 1 then Some(ReverseOctetDeltaCount)
      else if n == 29305 && id == 2 then Some(ReversePacketDeltaCount)
      else None
  }

  function NameOf(id: nat, pen: Option<nat>, version: nat): ElementName {
    if version == NETFLOW9_VERSION && id == 23 then ReverseOctetDeltaCount
    else if version == NETFLOW9_VERSION && id == 24 then ReversePacketDeltaCount
    else
      match RegistryName(pen, id)
      case Some(name) => name
      case None => if pen.Some? then EnterpriseElement(pen.value, id) else UnknownElement(id)
  }

  function DecodeValue(name: ElementName, raw: seq<byte>): Result<Reading, DecodeError> {
    if name.IsAddress() then
      if |raw| != 4 then Err(BadAddressLength) else Ok(Address(raw))
    else
      Ok(Number(FromBE(raw)))
  }

  function FieldOffset(fields: seq<CField>, n: nat): nat
    requires n <= |fields|
  {
    if n == 0 then 0 else FieldOffset(fields, n - 1) + fields[n - 1].length
  }

  function RecordSize(t: CTemplate): nat {
    FieldOffset(t.fields, |t.fields|)
  }

  // ---- Template sets ----

  /** The big-endian 16-bit integer at `at`. */
  function U16At(s: seq<byte>, at: nat): nat
    requires at + 2 <= |s|
  {
    FromBE(s[at..at + 2])
  }

  function U32At(s: seq<byte>, at: nat): nat
    requires at + 4 <= |s|
  {
    FromBE(s[at..at + 4])
  }

  /** One field specifier, and where the next one starts. */
  function ParseField(payload: seq<byte>, version: nat, at: nat): (r: Result<(CField, nat), DecodeError>)
    ensures r.Ok? ==> at + 4 <= r.value.1 <= |payload|
  {
    if at + 4 > |payload| then Err(TemplateOverruns)
    else
      var rawId, length := U16At(payload, at), U16At(payload, at + 2);
      if version == IPFIX_VERSION && rawId >= ENTERPRISE then
        if at + 8 > |payload| then Err(EnterpriseOverruns)
        else
          var id, pen := rawId - ENTERPRISE, Some(U32At(payload, at + 4));
          Ok((CField(NameOf(id, pen, version), length, id, pen), at + 8))
      else if version == NETFLOW9_VERSION && rawId >= ENTERPRISE then
        Err(EnterpriseUnderV9)
      else
        Ok((CField(NameOf(rawId, None, version), length, rawId, None), at + 4))
  }

  /** The first `n` field specifiers from `start`. */
  function ParseFields(payload: seq<byte>, version: nat, start: nat, n: nat): (r: Result<(seq<CField>, nat), DecodeError>)
    requires start <= |payload|
    ensures r.Ok? ==> start <= r.value.1 <= |payload| && |r.value.0| == n
  {
    if n == 0 then Ok(([], start))
    else
      var (fields, at) :- ParseFields(payload, version, start, n - 1);
      var (field, next) :- ParseField(payload, version, at);
      Ok((fields + [field], next))
  }

  /** The template loop goes on at `at`: four more bytes, not all zero. */
  predicate AtTemplate(payload: seq<byte>, at: nat) {
    at + 4 <= |payload| && payload[at..at + 4] != Zeros(4)
  }

  function ParseTemplates(payload: seq<byte>, version: nat, at: nat): Result<seq<CTemplate>, DecodeError>
    decreases |payload| - at
  {
    if !AtTemplate(payload, at) then Ok([])
    else
      var (fields, next) :- ParseFields(payload, version, at + 4, U16At(payload, at + 2));
      var rest :- ParseTemplates(payload, version, next);
      Ok([CTemplate(U16At(payload, at), fields)] + rest)
  }

  /** The specifier loop of one template record. */
  method ParseTemplateFields(payload: seq<byte>, version: nat, start: nat, fieldCount: nat)
    returns (r: Result<(seq<CField>, nat), DecodeError>)
    requires start <= |payload|
    ensures r == ParseFields(payload, version, start, fieldCount)
  {
    hide ParseField;
    var offset := start;
    var fields: seq<CField> := [];
    for i := 0 to fieldCount
      invariant start <= offset <= |payload|
      invariant ParseFields(payload, version, start, i) == Ok((fields, offset))
    {
      match ParseField(payload, version, offset) {
        case Err(e) =>
          FirstErrorWins(payload, version, start, i, fieldCount);
          return Err(e);
        case Ok(pair) =>
          fields := fields + [pair.0];
          offset := pair.1;
      }
    }
    return Ok((fields, offset));
  }

  method ParseTemplateSet(payload: seq<byte>, version: nat) returns (r: Result<seq<CTemplate>, DecodeError>)
    ensures r == ParseTemplates(payload, version, 0)
  {
    hide *;
    var templates: seq<CTemplate> := [];
    var offset := 0;
    ghost var all := ParseTemplates(payload, version, 0);
    assert all.Ok? ==> templates + all.value == all.value;
    while AtTemplate(payload, offset)
      invariant var rest := ParseTemplates(payload, version, offset);
                if rest.Ok? then all == Ok(templates + rest.value) else all == rest
      decreases |payload| - offset
    {
      TemplateStep(payload, version, offset);
      var templateId, fieldCount := U16At(payload, offset), U16At(payload, offset + 2);
      var parsed := ParseTemplateFields(payload, version, offset + 4, fieldCount);
      if parsed.Err? {
        return Err(parsed.error);
      }
      ghost var rest := ParseTemplates(payload, version, parsed.value.1);
      ghost var one := [CTemplate(templateId, parsed.value.0)];
      if rest.Ok? {
        assert templates + (one + rest.value) == templates + one + rest.value;
      }
      templates := templates + [CTemplate(templateId, parsed.value.0)];
      offset := parsed.value.1;
    }
    NoTemplateLeft(payload, version, offset);
    assert templates + [] == templates;
    return Ok(templates);
  }

  /** One template record, then the rest of the set. */
  lemma TemplateStep(payload: seq<byte>, version: nat, at: nat)
    requires AtTemplate(payload, at)
    ensures at + 4 <= |payload|
    ensures var fields := ParseFields(payload, version, at + 4, U16At(payload, at + 2));
            if fields.Err? then ParseTemplates(payload, version, at) == Err(fields.error)
            else
              var rest := ParseTemplates(payload, version, fields.value.1);
              ParseTemplates(payload, version, at) ==
              if rest.Err? then rest else Ok([CTemplate(U16At(payload, at), fields.value.0)] + rest.value)
  {
    hide ParseFields, U16At, Zeros;
  }

  lemma NoTemplateLeft(payload: seq<byte>, version: nat, at: nat)
    requires !AtTemplate(payload, at)
    ensures ParseTemplates(payload, version, at) == Ok([])
  {
  }

  /** A specifier that cannot be read stops the template there, whatever follows. */
  lemma {:induction false} FirstErrorWins(payload: seq<byte>, version: nat, start: nat, i: nat, n: nat)
    requires start <= |payload| && i < n
    requires ParseFields(payload, version, start, i).Ok?
    requires ParseField(payload, version, ParseFields(payload, version, start, i).value.1).Err?
    ensures ParseFields(payload, version, start, n) ==
            Err(ParseField(payload, version, ParseFields(payload, version, start, i).value.1).error)
  {
    hide ParseField;
    if i < n - 1 {
      FirstErrorWins(payload, version, start, i, n - 1);
    }
  }

  // ---- Data sets ----

  /** The first `n` fields of one record; a repeated name overwrites. */
  function DecodeFields(raw: seq<byte>, fields: seq<CField>, n: nat): Result<FlowRecord, DecodeError>
    requires n <= |fields|
    requires FieldOffset(fields, n) <= |raw|
  {
    if n == 0 then Ok(map[])
    else
      var record :- DecodeFields(raw, fields, n - 1);
      var value :- DecodeValue(fields[n - 1].name, raw[FieldOffset(fields, n - 1)..FieldOffset(fields, n)]);
      Ok(record[fields[n - 1].name := value])
  }

  /** The first `n` records of a data set. */
  function DecodeRecords(payload: seq<byte>, t: CTemplate, n: nat): Result<seq<FlowRecord>, DecodeError>
    requires n * RecordSize(t) <= |payload|
  {
    if n == 0 then Ok([])
    else
      MulIsMonotone(n, n, RecordSize(t));
      var records :- DecodeRecords(payload, t, n - 1);
      var record :- DecodeFields(payload[(n - 1) * RecordSize(t)..n * RecordSize(t)], t.fields, |t.fields|);
      Ok(records + [record])
  }

  function WholeRecords(payload: seq<byte>, size: nat): (n: nat)
    requires size > 0
    ensures n * size <= |payload| < n * size + size
  {
    DivisionEquation(|payload|, size);
    Quotient(|payload|, size)
  }

  lemma DivisionEquation(x: nat, d: nat)
    requires d > 0
    ensures Quotient(x, d) * d <= x < Quotient(x, d) * d + d
  {
    assert x == x / d * d + x % d;
  }

  /** The flows of a data set's payload: as many as divide into it, the remainder ignored. */
  function ParseRecords(payload: seq<byte>, t: CTemplate): Result<seq<FlowRecord>, DecodeError> {
    if RecordSize(t) == 0 then Err(ZeroByteRecord)
    else DecodeRecords(payload, t, WholeRecords(payload, RecordSize(t)))
  }

  method ParseRecord(payload: seq<byte>, start: nat, t: CTemplate) returns (offset: nat, r: Result<FlowRecord, DecodeError>)
    requires start + RecordSize(t) <= |payload|
    ensures r == DecodeFields(payload[start..start + RecordSize(t)], t.fields, |t.fields|)
    ensures r.Ok? ==> offset == start + RecordSize(t)
  {
    ghost var raw := payload[start..start + RecordSize(t)];
    var record: FlowRecord := map[];
    offset := start;
    NoFieldsYet(raw, t.fields);
    RecordSizeIs(t);
    hide *;
    for i := 0 to |t.fields|
      invariant FieldOffset(t.fields, i) <= |raw|
      invariant offset == start + FieldOffset(t.fields, i)
      invariant DecodeFields(raw, t.fields, i) == Ok(record)
    {
      FieldOffsetIsMonotone(t.fields, i + 1, |t.fields|);
      FieldOffsetSteps(t.fields, i);
      var field := t.fields[i];
      SliceOfSlice(payload, start, start + RecordSize(t), FieldOffset(t.fields, i), FieldOffset(t.fields, i + 1));
      match DecodeValue(field.name, payload[offset..offset + field.length]) {
        case Err(e) =>
          FirstBadFieldWins(raw, t.fields, i, |t.fields|);
          return offset, Err(e);
        case Ok(value) =>
          OneMoreField(raw, t.fields, i, record, value);
          record := record[field.name := value];
          offset := offset + field.length;
      }
    }
    return offset, Ok(record);
  }

  lemma NoFieldsYet(raw: seq<byte>, fields: seq<CField>)
    ensures FieldOffset(fields, 0) == 0
    ensures DecodeFields(raw, fields, 0) == Ok(map[])
  {
  }

  lemma FieldOffsetSteps(fields: seq<CField>, i: nat)
    requires i < |fields|
    ensures FieldOffset(fields, i + 1) == FieldOffset(fields, i) + fields[i].length
  {
  }

  lemma OneMoreField(raw: seq<byte>, fields: seq<CField>, i: nat, record: FlowRecord, value: Reading)
    requires i < |fields| && FieldOffset(fields, i) <= FieldOffset(fields, i + 1) <= |raw|
    requires DecodeFields(raw, fields, i) == Ok(record)
    requires DecodeValue(fields[i].name, raw[FieldOffset(fields, i)..FieldOffset(fields, i + 1)]) == Ok(value)
    ensures DecodeFields(raw, fields, i + 1) == Ok(record[fields[i].name := value])
  {
    hide DecodeValue;
  }

  lemma RecordSizeIs(t: CTemplate)
    ensures RecordSize(t) == FieldOffset(t.fields, |t.fields|)
  {
  }

  lemma {:induction false} FieldOffsetIsMonotone(fields: seq<CField>, i: nat, n: nat)
    requires i <= n <= |fields|
    ensures FieldOffset(fields, i) <= FieldOffset(fields, n)
  {
    if i < n {
      FieldOffsetIsMonotone(fields, i, n - 1);
    }
  }

  lemma {:induction false} FirstBadFieldWins(raw: seq<byte>, fields: seq<CField>, i: nat, n: nat)
    requires i < n <= |fields| && FieldOffset(fields, n) <= |raw|
    requires FieldOffset(fields, i) <= FieldOffset(fields, i + 1) <= |raw|
    requires DecodeFields(raw, fields, i).Ok?
    requires DecodeValue(fields[i].name, raw[FieldOffset(fields, i)..FieldOffset(fields, i + 1)]).Err?
    ensures DecodeFields(raw, fields, n) ==
            Err(DecodeValue(fields[i].name, raw[FieldOffset(fields, i)..FieldOffset(fields, i + 1)]).error)
  {
    hide DecodeValue;
    if i < n - 1 {
      FieldOffsetIsMonotone(fields, n - 1, n);
      FirstBadFieldWins(raw, fields, i, n - 1);
    }
  }

  method ParseDataSet(payload: seq<byte>, t: CTemplate) returns (r: Result<seq<FlowRecord>, DecodeError>)
    ensures r == ParseRecords(payload, t)
  {
    var size := RecordSize(t);
    if size == 0 {
      return Err(ZeroByteRecord);
    }
    var records: seq<FlowRecord> := [];
    var offset := 0;
    ghost var k, n := 0, WholeRecords(payload, size);
    while |payload| - offset >= size
      invariant k <= n && offset == k * size <= |payload|
      invariant DecodeRecords(payload, t, k) == Ok(records)
      decreases |payload| - offset
    {
      hide RecordSize, DecodeFields;
      MulIsMonotone(k + 1, k + 1, size);
      QuotientIsEnough(|payload|, size, k, n);
      var next, decoded := ParseRecord(payload, offset, t);
      match decoded {
        case Err(e) =>
          FirstBadRecordWins(payload, t, k, n);
          return Err(e);
        case Ok(record) =>
          records := records + [record];
          offset := next;
          k := k + 1;
      }
    }
    QuotientIsExact(|payload|, size, k, n);
    return Ok(records);
  }

  lemma QuotientIsEnough(x: nat, d: nat, k: nat, n: nat)
    requires d > 0 && n * d <= x < n * d + d && k * d + d <= x && k <= n
    ensures k < n
  {
  }

  lemma QuotientIsExact(x: nat, d: nat, k: nat, n: nat)
    requires d > 0 && n * d <= x && x - k * d < d && k <= n
    ensures k == n
  {
    if k < n {
      MulIsMonotone(k + 1, n, d);
      MulIsMonotone(k + 1, k + 1, d);
    }
  }

  lemma {:induction false} FirstBadRecordWins(payload: seq<byte>, t: CTemplate, k: nat, n: nat)
    requires k < n && n * RecordSize(t) <= |payload|
    requires k * RecordSize(t) <= (k + 1) * RecordSize(t) <= |payload|
    requires DecodeRecords(payload, t, k).Ok?
    requires DecodeFields(payload[k * RecordSize(t)..(k + 1) * RecordSize(t)], t.fields, |t.fields|).Err?
    ensures DecodeRecords(payload, t, n) ==
            Err(DecodeFields(payload[k * RecordSize(t)..(k + 1) * RecordSize(t)], t.fields, |t.fields|).error)
  {
    hide RecordSize, DecodeFields;
    RecordSizeIs(t);
    MulIsMonotone(n, n, RecordSize(t));
    if k < n - 1 {
      FirstBadRecordWins(payload, t, k, n - 1);
    }
  }

  // ---- Whole datagrams ----

  /** What has been gathered from the sets read so far. */
  datatype Gathered = Gathered(table: Table, templates: seq<CTemplate>, records: seq<FlowRecord>)

  /** A datagram's outcome. Templates registered before an error stay registered. */
  datatype Decoded = Decoded(table: Table, result: Result<Export, DecodeError>)

  function Register(table: Table, templates: seq<CTemplate>): Table {
    if templates == [] then table
    else Register(table, templates[..|templates| - 1])[templates[|templates| - 1].templateId := templates[|templates| - 1]]
  }

  function ReadSet(g: Gathered, version: nat, templateSetId: nat, setId: nat, payload: seq<byte>): Result<Gathered, DecodeError> {
    if setId == templateSetId then
      var templates :- ParseTemplates(payload, version, 0);
      Ok(Gathered(Register(g.table, templates), g.templates + templates, g.records))
    else if setId < 256 then
      Err(SetIdReserved)
    else if setId !in g.table then
      Ok(g)
    else
      var records :- ParseRecords(payload, g.table[setId]);
      Ok(g.(records := g.records + records))
  }

  datatype SetsRead = SetsRead(g: Gathered, error: Option<DecodeError>)

  function ReadSets(datagram: seq<byte>, version: nat, templateSetId: nat, at: nat, g: Gathered): SetsRead
    decreases |datagram| - at
  {
    if at + 4 > |datagram| then SetsRead(g, None)
    else
      var setId, setLength := U16At(datagram, at), U16At(datagram, at + 2);
      if setLength < 4 then SetsRead(g, Some(SetTooShort))
      else if at + setLength > |datagram| then SetsRead(g, Some(SetOverruns))
      else
        match ReadSet(g, version, templateSetId, setId, datagram[at + 4..at + setLength])
        case Err(e) => SetsRead(g, Some(e))
        case Ok(next) => ReadSets(datagram, version, templateSetId, at + setLength, next)
  }

  /** The fixed fields of a message header; `count` exists under v9 only. */
  datatype Head = Head(version: nat, length: nat, templateSetId: nat, exportTime: nat, sequence: nat, domainId: nat,
                       count: Option<nat>)

  function ReadHead(datagram: seq<byte>): (r: Result<Head, DecodeError>)
    ensures r.Ok? ==> r.value.length <= |datagram|
  {
    if |datagram| < 4 then Err(DatagramTooShort)
    else
      var version := U16At(datagram, 0);
      if version == IPFIX_VERSION then
        if |datagram| < 16 then Err(ShortHeader)
        else if U16At(datagram, 2) != |datagram| then Err(LengthMismatch)
        else Ok(Head(version, 16, 2, U32At(datagram, 4), U32At(datagram, 8), U32At(datagram, 12), None))
      else if version == NETFLOW9_VERSION then
        if |datagram| < 20 then Err(ShortHeader)
        else Ok(Head(version, 20, 0, U32At(datagram, 8), U32At(datagram, 12), U32At(datagram, 16), Some(U16At(datagram, 2))))
      else
        Err(UnknownVersion)
  }

  function DecodeDatagram(datagram: seq<byte>, table: Table): Decoded {
    match ReadHead(datagram)
    case Err(e) => Decoded(table, Err(e))
    case Ok(head) =>
      var SetsRead(g, error) := ReadSets(datagram, head.version, head.templateSetId, head.length, Gathered(table, [], []));
      if error.Some? then Decoded(g.table, Err(error.value))
      else Decoded(g.table, Ok(Export(head.version, head.sequence, head.domainId, head.exportTime, head.count,
                                      g.templates, g.records)))
  }

  method RegisterAll(table: Table, seen: seq<CTemplate>, templates: seq<CTemplate>) returns (table': Table, seen': seq<CTemplate>)
    ensures table' == Register(table, templates)
    ensures seen' == seen + templates
  {
    table', seen' := table, seen;
    assert templates[..0] == [];
    for i := 0 to |templates|
      invariant table' == Register(table, templates[..i])
      invariant seen' == seen + templates[..i]
    {
      assert templates[..i + 1][..i] == templates[..i];
      table' := table'[templates[i].templateId := templates[i]];
      seen' := seen' + [templates[i]];
    }
    assert templates[..|templates|] == templates;
  }

  method Decode(datagram: seq<byte>, templates: Table) returns (table: Table, r: Result<Export, DecodeError>)
    ensures Decoded(table, r) == DecodeDatagram(datagram, templates)
  {
    hide Register, ParseTemplates, ParseRecords, U16At;
    table := templates;
    var header := ReadHead(datagram);
    if header.Err? {
      return table, Err(header.error);
    }
    var head := header.value;
    var offset := head.length;
    var newTemplates: seq<CTemplate> := [];
    var records: seq<FlowRecord> := [];
    ghost var all := ReadSets(datagram, head.version, head.templateSetId, offset, Gathered(table, [], []));
    while offset + 4 <= |datagram|
      invariant ReadSets(datagram, head.version, head.templateSetId, offset, Gathered(table, newTemplates, records)) == all
      decreases |datagram| - offset
    {
      var setId, setLength := U16At(datagram, offset), U16At(datagram, offset + 2);
      if setLength < 4 {
        return table, Err(SetTooShort);
      }
      if offset + setLength > |datagram| {
        return table, Err(SetOverruns);
      }
      var payload := datagram[offset + 4..offset + setLength];
      if setId == head.templateSetId {
        var parsed := ParseTemplateSet(payload, head.version);
        if parsed.Err? {
          return table, Err(parsed.error);
        }
        table, newTemplates := RegisterAll(table, newTemplates, parsed.value);
      } else if setId < 256 {
        return table, Err(SetIdReserved);
      } else if setId in table {
        var parsed := ParseDataSet(payload, table[setId]);
        if parsed.Err? {
          return table, Err(parsed.error);
        }
        records := records + parsed.value;
      }
      offset := offset + setLength;
    }
    return table, Ok(Export(head.version, head.sequence, head.domainId, head.exportTime, head.count, newTemplates, records));
  }
}
