/** The exported field set: profiles, their resolution into a template, and the sizes that follow from it. */
module Template {
  import opened Bytes

  const MAX_MSG_SIZE: nat := 1472
  const SET_HEADER_LEN: nat := 4
  const FIELD_SPECIFIER_LEN: nat := 4
  const ENTERPRISE_NUMBER_LEN: nat := 4
  const ENTERPRISE_BIT: nat := 0x8000
  const MIN_TEMPLATE_ID: nat := 256
  const REVERSE_PEN: u32 := 29305
  const V9_OUT_BYTES: u16 := 23
  const V9_OUT_PKTS: u16 := 24

  /** The fourteen event values a template field can export. */
  datatype FieldSource =
    | NatEvent | IpProtocol
    | SrcIp | DstIp | SrcPort | DstPort
    | PostNatSrcIp | PostNatSrcPort | PostNatDstIp | PostNatDstPort
    | OrigBytes | OrigPackets | ReplyBytes | ReplyPackets
  {
    /** The fixed byte length of an address, port, protocol or event code; none for a counter, whose length is configured. */
    function NaturalLen(): Option<u16> {
      match this
      case NatEvent | IpProtocol => Some(1)
      case SrcPort | DstPort | PostNatSrcPort | PostNatDstPort => Some(2)
      case SrcIp | DstIp | PostNatSrcIp | PostNatDstIp => Some(4)
      case OrigBytes | OrigPackets | ReplyBytes | ReplyPackets => None
    }
  }

  datatype Element = Element(id: u16, pen: Option<u32>)

  function Ie(id: u16): Element { Element(id, None) }

  /** A reverse information element in the sense of section 6.1 of RFC 5103: the same id under the reverse PEN. */
  function ReverseIe(id: u16): Element { Element(id, Some(REVERSE_PEN)) }

  datatype Width = Fixed(len: u16) | Counter

  datatype FieldShape = FieldShape(source: FieldSource, ipfix: Element, width: Width)

  const PROFILE_FULL: seq<FieldShape> := [
    FieldShape(NatEvent, Ie(230), Fixed(1)),
    FieldShape(IpProtocol, Ie(4), Fixed(1)),
    FieldShape(SrcIp, Ie(8), Fixed(4)),
    FieldShape(DstIp, Ie(12), Fixed(4)),
    FieldShape(SrcPort, Ie(7), Fixed(2)),
    FieldShape(DstPort, Ie(11), Fixed(2)),
    FieldShape(PostNatSrcIp, Ie(225), Fixed(4)),
    FieldShape(PostNatSrcPort, Ie(227), Fixed(2)),
    FieldShape(PostNatDstIp, Ie(226), Fixed(4)),
    FieldShape(PostNatDstPort, Ie(228), Fixed(2)),
    FieldShape(OrigBytes, Ie(1), Counter),
    FieldShape(OrigPackets, Ie(2), Counter),
    FieldShape(ReplyBytes, ReverseIe(1), Counter),
    FieldShape(ReplyPackets, ReverseIe(2), Counter)]

  const PROFILE_NAT_SOURCE: seq<FieldShape> := [
    FieldShape(NatEvent, Ie(230), Fixed(1)),
    FieldShape(IpProtocol, Ie(4), Fixed(1)),
    FieldShape(SrcIp, Ie(8), Fixed(4)),
    FieldShape(DstIp, Ie(12), Fixed(4)),
    FieldShape(SrcPort, Ie(7), Fixed(2)),
    FieldShape(DstPort, Ie(11), Fixed(2)),
    FieldShape(PostNatSrcIp, Ie(225), Fixed(4)),
    FieldShape(PostNatSrcPort, Ie(227), Fixed(2)),
    FieldShape(OrigBytes, Ie(1), Counter),
    FieldShape(OrigPackets, Ie(2), Counter),
    FieldShape(ReplyBytes, ReverseIe(1), Counter),
    FieldShape(ReplyPackets, ReverseIe(2), Counter)]

  const PROFILE_FLOW_ONLY: seq<FieldShape> := [
    FieldShape(IpProtocol, Ie(4), Fixed(1)),
    FieldShape(SrcIp, Ie(8), Fixed(4)),
    FieldShape(DstIp, Ie(12), Fixed(4)),
    FieldShape(SrcPort, Ie(7), Fixed(2)),
    FieldShape(DstPort, Ie(11), Fixed(2)),
    FieldShape(OrigBytes, Ie(1), Counter),
    FieldShape(OrigPackets, Ie(2), Counter),
    FieldShape(ReplyBytes, ReverseIe(1), Counter),
    FieldShape(ReplyPackets, ReverseIe(2), Counter)]

  predicate ShapeIsConsistent(shape: FieldShape) {
    match (shape.width, shape.source.NaturalLen())
    case (Fixed(declared), Some(natural)) => declared == natural
    case (Counter, None) => true
    case _ => false
  }

  method ShapesAreConsistent(shapes: seq<FieldShape>) returns (ok: bool)
    ensures ok <==> forall i :: 0 <= i < |shapes| ==> ShapeIsConsistent(shapes[i])
  {
    var i := 0;
    while i < |shapes|
      invariant i <= |shapes|
      invariant forall j :: 0 <= j < i ==> ShapeIsConsistent(shapes[j])
    {
      if !ShapeIsConsistent(shapes[i]) {
        return false;
      }
      i := i + 1;
    }
    return true;
  }

  datatype Protocol = Ipfix | Netflow9 {
    function Version(): u16 { if Ipfix? then 10 else 9 }
    function HeaderLen(): nat { if Ipfix? then 16 else 20 }
    function TemplateSetId(): u16 { if Ipfix? then 2 else 0 }
    predicate SupportsEnterprise() { Ipfix? }
    function SetAlignment(): (a: nat)
      ensures a > 0
    {
      if Ipfix? then 1 else 4
    }
  }

  /** The id announced under v9: OUT_BYTES and OUT_PKTS for the reply counters, the IPFIX id for all else. */
  function Netflow9Type(source: FieldSource, ipfixId: u16): u16 {
    match source
    case ReplyBytes => V9_OUT_BYTES
    case ReplyPackets => V9_OUT_PKTS
    case _ => ipfixId
  }

  datatype Profile = Full | NatSource | FlowOnly {
    function Shapes(): seq<FieldShape> {
      match this
      case Full => PROFILE_FULL
      case NatSource => PROFILE_NAT_SOURCE
      case FlowOnly => PROFILE_FLOW_ONLY
    }
  }

  datatype CounterWidth = Four | Eight {
    function Bytes(): u16 { if Four? then 4 else 8 }
  }

  datatype ConfigError = BadTemplateInterval | BadCounterWidth(bytes: u8) | TemplateIdReserved(id: u16) | DoesNotFit

  function CounterWidthFromBytes(bytes: u8): Result<CounterWidth, ConfigError> {
    if bytes == 4 then Ok(Four) else if bytes == 8 then Ok(Eight) else Err(BadCounterWidth(bytes))
  }

  datatype ResolvedField = ResolvedField(id: u16, pen: Option<u32>, length: u16, source: FieldSource)

  datatype Template = Template(
    fields: seq<ResolvedField>,
    recordSize: nat,
    templateId: u16,
    protocol: Protocol,
    profile: Profile,
    counterWidth: CounterWidth)
  {
    /** Bytes the template set takes in a message, rounded up to the alignment. */
    function SetSize(): nat {
      AlignUp(SET_HEADER_LEN + 4 + SpecifiersLen(fields, |fields|), protocol.SetAlignment())
    }

    /** Bytes a data set takes with `records` records in it, rounded up to the alignment. */
    function DataSetSize(records: nat): nat {
      AlignUp(SET_HEADER_LEN + records * recordSize, protocol.SetAlignment())
    }

    /** Where a message's data set starts: after the header and the template set, when it carries one. */
    function DataStart(withTemplate: bool): nat {
      protocol.HeaderLen() + if withTemplate then SetSize() else 0
    }

    /** The test `add_record` makes before accepting the n-th record of a message. */
    predicate RecordFits(withTemplate: bool, n: nat) {
      DataStart(withTemplate) + SET_HEADER_LEN + n * recordSize + (protocol.SetAlignment() - 1) <= MAX_MSG_SIZE
    }
  }

  /** Byte offset of the n-th field within a record. */
  function Offset(fields: seq<ResolvedField>, n: nat): nat
    requires n <= |fields|
  {
    if n == 0 then 0 else Offset(fields, n - 1) + fields[n - 1].length
  }

  function SpecifierLen(f: ResolvedField): nat {
    if f.pen.Some? then FIELD_SPECIFIER_LEN + ENTERPRISE_NUMBER_LEN else FIELD_SPECIFIER_LEN
  }

  /** Byte offset of the n-th field specifier within a template record. */
  function SpecifiersLen(fields: seq<ResolvedField>, n: nat): nat
    requires n <= |fields|
  {
    if n == 0 then 0 else SpecifiersLen(fields, n - 1) + SpecifierLen(fields[n - 1])
  }

  function ResolveField(protocol: Protocol, width: CounterWidth, shape: FieldShape): ResolvedField {
    var length := if shape.width.Fixed? then shape.width.len else width.Bytes();
    if protocol.Ipfix?
    then ResolvedField(shape.ipfix.id, shape.ipfix.pen, length, shape.source)
    else ResolvedField(Netflow9Type(shape.source, shape.ipfix.id), None, length, shape.source)
  }

  function ResolveFields(protocol: Protocol, width: CounterWidth, shapes: seq<FieldShape>): (fields: seq<ResolvedField>)
    ensures |fields| == |shapes|
    ensures forall i :: 0 <= i < |fields| ==> fields[i] == ResolveField(protocol, width, shapes[i])
  {
    seq(|shapes|, i requires 0 <= i < |shapes| => ResolveField(protocol, width, shapes[i]))
  }

  /** Resolve a profile, before the checks that can refuse it. */
  function Unchecked(protocol: Protocol, profile: Profile, width: CounterWidth, templateId: u16): Template {
    var fields := ResolveFields(protocol, width, profile.Shapes());
    Template(fields, Offset(fields, |fields|), templateId, protocol, profile, width)
  }

  /** The size test `resolve` makes: template set and a one-record data set, exactly padded, fit one message. */
  predicate PassesGuard(t: Template) {
    t.protocol.HeaderLen() + t.SetSize() + t.DataSetSize(1) <= MAX_MSG_SIZE
  }

  function Resolve(protocol: Protocol, profile: Profile, width: CounterWidth, templateId: u16): Result<Template, ConfigError> {
    if templateId < MIN_TEMPLATE_ID then
      Err(TemplateIdReserved(templateId))
    else
      var t := Unchecked(protocol, profile, width, templateId);
      if PassesGuard(t) then Ok(t) else Err(DoesNotFit)
  }

  // ---- What the encoder relies on ----

  /** The advertised width is the one the source is written at. */
  predicate WidthIsSound(f: ResolvedField) {
    match f.source.NaturalLen()
    case Some(n) => f.length == n
    case None => 1 <= f.length <= 8
  }

  /** A field the encoder can describe and write. */
  predicate FieldIsSound(protocol: Protocol, f: ResolvedField) {
    && f.id < ENTERPRISE_BIT
    && (f.pen.Some? ==> protocol.SupportsEnterprise())
    && WidthIsSound(f)
  }

  /** A template every message can be built from without a failed conversion, slice or subtraction. */
  predicate Exportable(t: Template) {
    && MIN_TEMPLATE_ID <= t.templateId
    && t.recordSize == Offset(t.fields, |t.fields|)
    && t.protocol.SetAlignment() <= t.recordSize
    && |t.fields| < 0x1_0000
    && (forall i :: 0 <= i < |t.fields| ==> FieldIsSound(t.protocol, t.fields[i]))
    && t.RecordFits(true, 1)
  }

  lemma OffsetOfFour(fields: seq<ResolvedField>, n: nat)
    requires n + 4 <= |fields|
    ensures Offset(fields, n + 4) ==
            Offset(fields, n) + fields[n].length + fields[n + 1].length + fields[n + 2].length + fields[n + 3].length
  {
    assert Offset(fields, n + 1) == Offset(fields, n) + fields[n].length;
    assert Offset(fields, n + 2) == Offset(fields, n + 1) + fields[n + 1].length;
    assert Offset(fields, n + 3) == Offset(fields, n + 2) + fields[n + 2].length;
  }

  lemma {:induction false} PlainSpecifiers(fields: seq<ResolvedField>, n: nat)
    requires n <= |fields|
    requires forall i :: 0 <= i < n ==> SpecifierLen(fields[i]) == 4
    ensures SpecifiersLen(fields, n) == 4 * n
  {
    if n > 0 {
      PlainSpecifiers(fields, n - 1);
    }
  }

  /** The numbers in the README's profile table. */
  function DocumentedFieldCount(profile: Profile): nat {
    match profile case Full => 14 case NatSource => 12 case FlowOnly => 9
  }

  function DocumentedRecordSize(profile: Profile, width: CounterWidth): nat {
    match (profile, width)
    case (Full, Eight) => 58
    case (Full, Four) => 42
    case (NatSource, Eight) => 52
    case (NatSource, Four) => 36
    case (FlowOnly, Eight) => 45
    case (FlowOnly, Four) => 29
  }

  /** In every profile only the last two fields, the reply counters, can need an enterprise number. */
  lemma SpecifierWidths(protocol: Protocol, profile: Profile, width: CounterWidth)
    ensures var f := ResolveFields(protocol, width, profile.Shapes());
            && |f| == DocumentedFieldCount(profile)
            && SpecifiersLen(f, |f|) == 4 * |f| + if protocol.Ipfix? then 8 else 0
  {
    var f := ResolveFields(protocol, width, profile.Shapes());
    var n := |f| - 2;
    assert forall i :: 0 <= i < n ==> SpecifierLen(f[i]) == 4;
    assert SpecifierLen(f[n]) == SpecifierLen(f[n + 1]) == if protocol.Ipfix? then 8 else 4;
    PlainSpecifiers(f, n);
    assert SpecifiersLen(f, n + 1) == SpecifiersLen(f, n) + SpecifierLen(f[n]);
  }

  lemma FullLengths(protocol: Protocol, width: CounterWidth)
    ensures var f := ResolveFields(protocol, width, PROFILE_FULL);
            && f[0].length == f[1].length == 1 && f[2].length == f[3].length == 4
            && f[4].length == f[5].length == 2 && f[6].length == 4 && f[7].length == 2
            && f[8].length == 4 && f[9].length == 2 && f[10].length == f[11].length == width.Bytes()
            && f[12].length == f[13].length == width.Bytes()
  {
  }

  lemma NatSourceLengths(protocol: Protocol, width: CounterWidth)
    ensures var f := ResolveFields(protocol, width, PROFILE_NAT_SOURCE);
            && f[0].length == f[1].length == 1 && f[2].length == f[3].length == 4
            && f[4].length == f[5].length == 2 && f[6].length == 4 && f[7].length == 2
            && f[8].length == f[9].length == f[10].length == f[11].length == width.Bytes()
  {
  }

  lemma FlowOnlyLengths(protocol: Protocol, width: CounterWidth)
    ensures var f := ResolveFields(protocol, width, PROFILE_FLOW_ONLY);
            && f[0].length == 1 && f[1].length == f[2].length == 4 && f[3].length == f[4].length == 2
            && f[5].length == f[6].length == f[7].length == f[8].length == width.Bytes()
  {
  }

  lemma OffsetOfEight(f: seq<ResolvedField>)
    requires |f| >= 8
    ensures Offset(f, 8) == f[0].length + f[1].length + f[2].length + f[3].length
                            + f[4].length + f[5].length + f[6].length + f[7].length
  {
    assert Offset(f, 0) == 0;
    OffsetOfFour(f, 0);
    OffsetOfFour(f, 4);
  }

  lemma RecordSizeIsDocumented(protocol: Protocol, profile: Profile, width: CounterWidth)
    ensures var f := ResolveFields(protocol, width, profile.Shapes());
            Offset(f, |f|) == DocumentedRecordSize(profile, width)
  {
    var f := ResolveFields(protocol, width, profile.Shapes());
    OffsetOfEight(f);
    match profile {
      case Full =>
        FullLengths(protocol, width);
        OffsetOfFour(f, 8);
        assert Offset(f, 13) == Offset(f, 12) + f[12].length;
      case NatSource =>
        NatSourceLengths(protocol, width);
        OffsetOfFour(f, 8);
      case FlowOnly =>
        FlowOnlyLengths(protocol, width);
    }
  }

  lemma ResolvedSizes(protocol: Protocol, profile: Profile, width: CounterWidth, templateId: u16)
    ensures var t := Unchecked(protocol, profile, width, templateId);
            && |t.fields| == DocumentedFieldCount(profile)
            && t.recordSize == DocumentedRecordSize(profile, width)
            && SpecifiersLen(t.fields, |t.fields|) == 4 * |t.fields| + if protocol.Ipfix? then 8 else 0
  {
    SpecifierWidths(protocol, profile, width);
    RecordSizeIsDocumented(protocol, profile, width);
  }

  lemma ResolvedFieldsAreSound(protocol: Protocol, profile: Profile, width: CounterWidth)
    ensures var f := ResolveFields(protocol, width, profile.Shapes());
            forall i :: 0 <= i < |f| ==> FieldIsSound(protocol, f[i])
  {
  }

  /** The element ids of the README's record layout table, in its order, for the fields a profile has. */
  function DocumentedIds(profile: Profile): seq<u16> {
    match profile
    case Full => [230, 4, 8, 12, 7, 11, 225, 227, 226, 228, 1, 2, 1, 2]
    case NatSource => [230, 4, 8, 12, 7, 11, 225, 227, 1, 2, 1, 2]
    case FlowOnly => [4, 8, 12, 7, 11, 1, 2, 1, 2]
  }

  lemma TablesHoldDocumentedIds(profile: Profile)
    ensures var shapes := profile.Shapes();
            && |shapes| == |DocumentedIds(profile)| >= 2
            && (forall i :: 0 <= i < |shapes| ==> shapes[i].ipfix.id == DocumentedIds(profile)[i])
  {
    match profile {
      case Full =>
      case NatSource =>
      case FlowOnly =>
    }
  }

  lemma OnlyRepliesAreReversed(profile: Profile)
    ensures var shapes := profile.Shapes();
            && |shapes| >= 2 && shapes[|shapes| - 2].source == ReplyBytes && shapes[|shapes| - 1].source == ReplyPackets
            && (forall i :: 0 <= i < |shapes| - 2 ==> shapes[i].source != ReplyBytes && shapes[i].source != ReplyPackets)
            && (forall i :: 0 <= i < |shapes| ==> shapes[i].ipfix.pen == if i >= |shapes| - 2 then Some(29305) else None)
  {
    match profile {
      case Full =>
      case NatSource =>
      case FlowOnly =>
    }
  }

  /**
   * The template announces the documented elements in the documented order. The last two, the reply counters, are
   * reverse elements under IPFIX and types 23 and 24 under v9.
   */
  lemma DocumentedOrder(protocol: Protocol, profile: Profile, width: CounterWidth)
    ensures var f := ResolveFields(protocol, width, profile.Shapes());
            var ids := DocumentedIds(profile);
            && |f| == |ids| >= 2
            && (forall i :: 0 <= i < |f| - 2 ==> f[i].id == ids[i] && f[i].pen == None)
            && (protocol.Ipfix? ==> f[|f| - 2].id == 1 && f[|f| - 2].pen == f[|f| - 1].pen == Some(29305) && f[|f| - 1].id == 2)
            && (protocol.Netflow9? ==> f[|f| - 2].id == 23 && f[|f| - 2].pen == f[|f| - 1].pen == None && f[|f| - 1].id == 24)
  {
    TablesHoldDocumentedIds(profile);
    OnlyRepliesAreReversed(profile);
    assert DocumentedIds(profile)[|DocumentedIds(profile)| - 2] == 1 && DocumentedIds(profile)[|DocumentedIds(profile)| - 1] == 2;
    hide Profile.Shapes, DocumentedIds;
  }

  /** `resolve` refuses exactly the reserved template ids, and what it returns is always exportable. */
  lemma ResolveSucceedsExactlyWhen(protocol: Protocol, profile: Profile, width: CounterWidth, templateId: u16)
    ensures Resolve(protocol, profile, width, templateId).Ok? <==> MIN_TEMPLATE_ID <= templateId
    ensures Resolve(protocol, profile, width, templateId).Ok? ==>
              var t := Resolve(protocol, profile, width, templateId).value;
              && Exportable(t) && t == Unchecked(protocol, profile, width, templateId)
              && t.templateId == templateId && t.protocol == protocol
              && t.profile == profile && t.counterWidth == width
  {
    ResolvedSizes(protocol, profile, width, templateId);
    ResolvedFieldsAreSound(protocol, profile, width);
  }

  // ---- How many records a message holds ----

  /** What header and template set leave for the data set. */
  function DataBudget(t: Template): int {
    MAX_MSG_SIZE - t.protocol.HeaderLen() - t.SetSize()
  }

  /** Records that fit beside the template, as a quotient. */
  function MaxRecords(t: Template): nat
    requires t.recordSize > 0
  {
    if DataBudget(t) < SET_HEADER_LEN then 0 else Quotient(DataBudget(t) - SET_HEADER_LEN, t.recordSize)
  }

  /** The worst-case padding `add_record` sets aside. */
  function Reserve(t: Template): nat {
    t.protocol.SetAlignment() - 1
  }

  /** How many records greedy filling gets into a message, as a quotient. */
  function AcceptLimit(t: Template, withTemplate: bool): nat
    requires t.recordSize > 0
  {
    var room := MAX_MSG_SIZE - t.DataStart(withTemplate) - SET_HEADER_LEN - Reserve(t);
    if room < 0 then 0 else Quotient(room, t.recordSize)
  }

  lemma QuotientBound(n: nat, d: nat, x: nat)
    requires d > 0
    ensures n <= x / d <==> n * d <= x
  {
    var q := x / d;
    assert x == q * d + x % d;
    if n <= q {
      MulIsMonotone(n, q, d);
    } else {
      MulIsMonotone(q + 1, n, d);
    }
  }

  /** What setting `reserve` aside costs: nothing exactly when the remainder absorbs it. */
  lemma QuotientAfterReserve(x: nat, d: nat, reserve: nat)
    requires 0 < d && reserve <= x
    ensures (x - reserve) / d == x / d + (x % d - reserve) / d
    ensures (x % d - reserve) / d <= 0
    ensures (x % d - reserve) / d == 0 <==> reserve <= x % d
    ensures reserve <= d ==> (x % d - reserve) / d >= -1
  {
    var q, r := x / d, x % d;
    var cost := (r - reserve) / d;
    assert x == q * d + r;
    assert r - reserve == cost * d + (r - reserve) % d;
    assert x - reserve == (q + cost) * d + (r - reserve) % d by {
      assert (q + cost) * d == q * d + cost * d;
    }
    DivModUnique(x - reserve, d, q + cost, (r - reserve) % d);
    if cost > 0 {
      MulIsMonotone(1, cost, d);
    } else if cost < 0 {
      MulIsMonotone(cost, -1, d);
      if cost < -1 {
        MulIsMonotone(cost, -2, d);
      }
    }
  }

  lemma AlignedSetFits(t: Template, n: nat)
    requires DataBudget(t) >= 0
    ensures t.DataSetSize(n) <= DataBudget(t) <==> SET_HEADER_LEN + n * t.recordSize <= DataBudget(t)
  {
    BudgetIsAligned(t);
    hide AlignUp, DataBudget;
    AlignedFits(SET_HEADER_LEN + n * t.recordSize, t.protocol.SetAlignment(), DataBudget(t));
  }

  lemma BudgetIsAligned(t: Template)
    ensures DataBudget(t) % t.protocol.SetAlignment() == 0
  {
    hide AlignUp;
    if t.protocol.Netflow9? {
      assert t.SetSize() % 4 == 0;
    }
  }

  lemma AlignedFits(len: nat, a: nat, budget: nat)
    requires a == 1 || a == 4
    requires budget % a == 0
    ensures AlignUp(len, a) <= budget <==> len <= budget
  {
    hide AlignUp;
    if a == 4 {
      assert AlignUp(len, a) % 4 == 0 && budget % 4 == 0;
    }
  }

  /** The loop's answer is the closed form: both count the records whose padded set fits the budget. */
  lemma MaxRecordsIsTheLoopsAnswer(t: Template, records: nat)
    requires t.recordSize > 0
    requires DataBudget(t) >= 0
    requires records > 0 ==> t.DataSetSize(records) <= DataBudget(t)
    requires t.DataSetSize(records + 1) > DataBudget(t)
    ensures records == MaxRecords(t)
  {
    AlignedSetFits(t, records);
    AlignedSetFits(t, records + 1);
    MulIsMonotone(0, records, t.recordSize);
    MulIsMonotone(0, records + 1, t.recordSize);
    if DataBudget(t) >= SET_HEADER_LEN {
      QuotientBound(records, t.recordSize, DataBudget(t) - SET_HEADER_LEN);
      QuotientBound(records + 1, t.recordSize, DataBudget(t) - SET_HEADER_LEN);
    }
  }

  /** The loop counts the records whose padded set fits the budget: a quotient, found one step at a time. */
  method MaxRecordsPerMessage(t: Template) returns (records: nat)
    requires t.recordSize > 0
    requires DataBudget(t) >= 0
    ensures records > 0 ==> t.DataSetSize(records) <= DataBudget(t)
    ensures t.DataSetSize(records + 1) > DataBudget(t)
    ensures records == MaxRecords(t)
  {
    hide AlignUp;
    var budget := DataBudget(t);
    records := 0;
    while t.DataSetSize(records + 1) <= budget
      invariant records > 0 ==> t.DataSetSize(records) <= budget
      invariant records <= records * t.recordSize
      decreases budget - records * t.recordSize
    {
      MulIsMonotone(records + 1, records + 1, t.recordSize);
      records := records + 1;
    }
    MaxRecordsIsTheLoopsAnswer(t, records);
  }

  /** For any template at all, the n-th record is accepted exactly up to the limit. */
  lemma AcceptedUpToLimit(t: Template, withTemplate: bool, n: nat)
    requires t.recordSize > 0 && n > 0
    ensures t.RecordFits(withTemplate, n) <==> n <= AcceptLimit(t, withTemplate)
  {
    hide AlignUp;
    var room := MAX_MSG_SIZE - t.DataStart(withTemplate) - SET_HEADER_LEN - Reserve(t);
    MulIsMonotone(1, n, t.recordSize);
    if room >= 0 {
      QuotientBound(n, t.recordSize, room);
    }
  }

  /**
   * `add_record` reserves worst-case padding while `max_records_per_message` counts exact padding. For any
   * template the achieved figure never exceeds the reported one, and the two agree exactly when nothing is
   * reported or what is left over absorbs the reserve. Otherwise greedy filling stops short, by exactly one
   * record if a record is at least as long as the reserve.
   */
  lemma GreedyVersusReported(t: Template)
    requires t.recordSize > 0
    ensures AcceptLimit(t, true) <= MaxRecords(t)
    ensures AcceptLimit(t, true) == MaxRecords(t) <==>
              MaxRecords(t) == 0 || Reserve(t) <= (DataBudget(t) - SET_HEADER_LEN) % t.recordSize
    ensures Reserve(t) <= t.recordSize ==> MaxRecords(t) <= AcceptLimit(t, true) + 1
  {
    BudgetIsAligned(t);
    hide AlignUp;
    var x := DataBudget(t) - SET_HEADER_LEN;
    if x > 0 {
      QuotientAfterReserve(x, t.recordSize, Reserve(t));
    } else if x == 0 {
      QuotientBound(1, t.recordSize, 0);
    }
  }

  /**
   * The guard counts exact padding, `add_record` the reserve. Behind the guard the first record is accepted
   * unless, under v9, that record's set fills the message to the last byte with fewer than three padding bytes.
   */
  lemma GuardGivesFirstRecord(t: Template, withTemplate: bool)
    requires PassesGuard(t)
    ensures t.RecordFits(true, 1) <==>
              || t.protocol.Ipfix?
              || t.protocol.HeaderLen() + t.SetSize() + t.DataSetSize(1) < MAX_MSG_SIZE
              || t.recordSize % 4 == 1
    ensures t.RecordFits(true, 1) ==> t.RecordFits(withTemplate, 1)
  {
    hide AlignUp;
    if t.protocol.Netflow9? {
      assert t.SetSize() % 4 == 0 && t.DataSetSize(1) % 4 == 0;
      assert SET_HEADER_LEN + t.recordSize <= t.DataSetSize(1) < SET_HEADER_LEN + t.recordSize + 4;
    }
  }

  /** A v9 template of nothing but `n` eight-byte counters. */
  function CountersOnly(n: nat): Template {
    Template(seq(n, i requires 0 <= i < n => ResolvedField(1, None, 8, OrigBytes)), 8 * n, 256, Netflow9, Full, Eight)
  }

  lemma {:induction false} CountersOnlySizes(t: Template, n: nat)
    requires n <= |t.fields| && t == CountersOnly(|t.fields|)
    ensures Offset(t.fields, n) == 8 * n && SpecifiersLen(t.fields, n) == 4 * n
  {
    if n > 0 {
      CountersOnlySizes(t, n - 1);
    }
  }

  /**
   * The guard alone is not enough: with 120 counters it passes, one record per message is reported, and every
   * record is refused.
   */
  lemma GuardIsNotEnough()
    ensures var t := CountersOnly(120);
            && t.recordSize == Offset(t.fields, |t.fields|)
            && (forall i :: 0 <= i < |t.fields| ==> FieldIsSound(t.protocol, t.fields[i]))
            && PassesGuard(t) && !t.RecordFits(true, 1)
            && MaxRecords(t) == 1 && AcceptLimit(t, true) == 0
  {
    var t := CountersOnly(120);
    CountersOnlySizes(t, 120);
    hide Offset, SpecifiersLen, CountersOnly;
    assert t.SetSize() == 488 && t.DataSetSize(1) == 964;
  }

  /** What is left over beside the template, for each v9 template, absorbs the padding reserve. */
  lemma Netflow9Remainders(profile: Profile, width: CounterWidth)
    ensures 3 <= (MAX_MSG_SIZE - 20 - (8 + 4 * DocumentedFieldCount(profile)) - 4) % DocumentedRecordSize(profile, width)
  {
  }

  lemma Netflow9Budget(t: Template)
    requires t.protocol.Netflow9? && SpecifiersLen(t.fields, |t.fields|) == 4 * |t.fields|
    ensures DataBudget(t) == MAX_MSG_SIZE - 20 - (8 + 4 * |t.fields|)
  {
    hide SpecifiersLen, AlignUp;
    AlignUpIsUnique(8 + 4 * |t.fields|, 4, 8 + 4 * |t.fields|);
  }

  /** For every template the program can run with, the figure it reports is the one it achieves. */
  lemma ResolvedCapacityIsExact(protocol: Protocol, profile: Profile, width: CounterWidth, templateId: u16)
    requires MIN_TEMPLATE_ID <= templateId
    ensures var t := Unchecked(protocol, profile, width, templateId);
            Exportable(t) && AcceptLimit(t, true) == MaxRecords(t)
  {
    var t := Unchecked(protocol, profile, width, templateId);
    ResolveSucceedsExactlyWhen(protocol, profile, width, templateId);
    ResolvedSizes(protocol, profile, width, templateId);
    Netflow9Remainders(profile, width);
    if protocol.Netflow9? {
      Netflow9Budget(t);
    }
    hide DocumentedRecordSize, DocumentedFieldCount, AcceptLimit, MaxRecords, ResolveFields, FieldIsSound, DataBudget, AlignUp;
    GreedyVersusReported(t);
  }
}
