/** Encoder and collector agree: what is decoded is what was encoded. */
module RoundTrip {
  import opened Bytes
  import opened Event
  import opened Template
  import opened Record
  import opened Message
  import opened Collector

  // ---- What a collector should see, said without mentioning bytes ----

  function LogicalName(source: FieldSource): ElementName {
    match source
    case NatEvent => NatEventCode
    case IpProtocol => ProtocolIdentifier
    case SrcIp => SourceIPv4Address
    case DstIp => DestinationIPv4Address
    case SrcPort => SourceTransportPort
    case DstPort => DestinationTransportPort
    case PostNatSrcIp => PostNATSourceIPv4Address
    case PostNatSrcPort => PostNAPTSourceTransportPort
    case PostNatDstIp => PostNATDestinationIPv4Address
    case PostNatDstPort => PostNAPTDestinationTransportPort
    case OrigBytes => OctetDeltaCount
    case OrigPackets => PacketDeltaCount
    case ReplyBytes => ReverseOctetDeltaCount
    case ReplyPackets => ReversePacketDeltaCount
  }

  /** The value an event reports under a logical name, counters clamped to `width` bytes. */
  function Reported(name: ElementName, width: nat, e: ConntrackEvent): Reading {
    match name
    case NatEventCode => Number(if e.natEvent.Create? then 4 else 5)
    case ProtocolIdentifier => Number(e.protocol)
    case SourceIPv4Address => Address(e.srcIp)
    case DestinationIPv4Address => Address(e.dstIp)
    case SourceTransportPort => Number(e.srcPort)
    case DestinationTransportPort => Number(e.dstPort)
    case PostNATSourceIPv4Address => Address(e.postNatSrcIp)
    case PostNAPTSourceTransportPort => Number(e.postNatSrcPort)
    case PostNATDestinationIPv4Address => Address(e.postNatDstIp)
    case PostNAPTDestinationTransportPort => Number(e.postNatDstPort)
    case OctetDeltaCount => Number(Clamp(e.origBytes, width))
    case PacketDeltaCount => Number(Clamp(e.origPackets, width))
    case ReverseOctetDeltaCount => Number(Clamp(e.replyBytes, width))
    case ReversePacketDeltaCount => Number(Clamp(e.replyPackets, width))
    case EnterpriseElement(_, _) => Number(0)
    case UnknownElement(_) => Number(0)
  }

  const FULL_NAMES: set<ElementName> := {
    NatEventCode, ProtocolIdentifier, SourceIPv4Address, DestinationIPv4Address, SourceTransportPort,
    DestinationTransportPort, PostNATSourceIPv4Address, PostNAPTSourceTransportPort,
    PostNATDestinationIPv4Address, PostNAPTDestinationTransportPort,
    OctetDeltaCount, PacketDeltaCount, ReverseOctetDeltaCount, ReversePacketDeltaCount}

  /** The names each profile reports: full, full less the post-NAT destination, full less all NAT names. */
  function ProfileNames(profile: Profile): set<ElementName> {
    match profile
    case Full => FULL_NAMES
    case NatSource => FULL_NAMES - {PostNATDestinationIPv4Address, PostNAPTDestinationTransportPort}
    case FlowOnly => FULL_NAMES - {NatEventCode, PostNATSourceIPv4Address, PostNAPTSourceTransportPort,
                                   PostNATDestinationIPv4Address, PostNAPTDestinationTransportPort}
  }

  function Report(names: set<ElementName>, width: nat, e: ConntrackEvent): FlowRecord {
    map name | name in names :: Reported(name, width, e)
  }

  /** The record a collector should hold for `e`. */
  function FlowOf(t: Template, e: ConntrackEvent): FlowRecord {
    Report(FieldNames(t.fields, |t.fields|), t.counterWidth.Bytes(), e)
  }

  function FlowsOf(t: Template, events: seq<ConntrackEvent>): (flows: seq<FlowRecord>)
    ensures |flows| == |events|
    ensures forall i :: 0 <= i < |events| ==> flows[i] == FlowOf(t, events[i])
  {
    seq(|events|, i requires 0 <= i < |events| => FlowOf(t, events[i]))
  }

  function FieldNames(fields: seq<ResolvedField>, n: nat): set<ElementName>
    requires n <= |fields|
  {
    if n == 0 then {} else FieldNames(fields, n - 1) + {LogicalName(fields[n - 1].source)}
  }

  /** The template as a collector should remember it. */
  function Pen(pen: Option<u32>): Option<nat> {
    match pen case None => None case Some(n) => Some(n)
  }

  function DescribeField(f: ResolvedField): CField {
    CField(LogicalName(f.source), f.length, f.id, Pen(f.pen))
  }

  function DescribeFields(fields: seq<ResolvedField>): (described: seq<CField>)
    ensures |described| == |fields|
    ensures forall i :: 0 <= i < |fields| ==> described[i] == DescribeField(fields[i])
  {
    seq(|fields|, i requires 0 <= i < |fields| => DescribeField(fields[i]))
  }

  function Describe(t: Template): CTemplate {
    CTemplate(t.templateId, DescribeFields(t.fields))
  }

  /** The (id, enterprise number) a field is announced under is the one the collector has for its source. */
  predicate FieldIsUnderstood(t: Template, f: ResolvedField) {
    && FieldIsSound(t.protocol, f)
    && NameOf(f.id, Pen(f.pen), t.protocol.Version()) == LogicalName(f.source)
    && (f.source.NaturalLen().None? ==> f.length == t.counterWidth.Bytes())
  }

  predicate Understood(t: Template) {
    && Exportable(t)
    && forall i :: 0 <= i < |t.fields| ==> FieldIsUnderstood(t, t.fields[i])
  }

  // ---- Everything `resolve` returns is understood ----

  /** The element each source is announced under, the same in every profile. */
  function ElementOf(source: FieldSource): Element {
    match source
    case NatEvent => Ie(230)
    case IpProtocol => Ie(4)
    case SrcIp => Ie(8)
    case DstIp => Ie(12)
    case SrcPort => Ie(7)
    case DstPort => Ie(11)
    case PostNatSrcIp => Ie(225)
    case PostNatSrcPort => Ie(227)
    case PostNatDstIp => Ie(226)
    case PostNatDstPort => Ie(228)
    case OrigBytes => Ie(1)
    case OrigPackets => Ie(2)
    case ReplyBytes => ReverseIe(1)
    case ReplyPackets => ReverseIe(2)
  }

  lemma TablesUseOneElementPerSource(profile: Profile)
    ensures forall i :: 0 <= i < |profile.Shapes()| ==>
              profile.Shapes()[i].ipfix == ElementOf(profile.Shapes()[i].source) && ShapeIsConsistent(profile.Shapes()[i])
  {
  }

  lemma ElementsAreNamed(source: FieldSource)
    ensures NameOf(ElementOf(source).id, Pen(ElementOf(source).pen), 10) == LogicalName(source)
    ensures NameOf(Netflow9Type(source, ElementOf(source).id), None, 9) == LogicalName(source)
  {
  }

  lemma ResolvedFieldsAreUnderstood(protocol: Protocol, profile: Profile, width: CounterWidth, templateId: u16)
    ensures var t := Unchecked(protocol, profile, width, templateId);
            forall i :: 0 <= i < |t.fields| ==>
              && NameOf(t.fields[i].id, Pen(t.fields[i].pen), protocol.Version()) == LogicalName(t.fields[i].source)
              && (t.fields[i].source.NaturalLen().None? ==> t.fields[i].length == width.Bytes())
  {
    TablesUseOneElementPerSource(profile);
    var t := Unchecked(protocol, profile, width, templateId);
    hide NameOf, LogicalName, ElementOf, Profile.Shapes, AlignUp;
    forall i | 0 <= i < |t.fields|
      ensures NameOf(t.fields[i].id, Pen(t.fields[i].pen), protocol.Version()) == LogicalName(t.fields[i].source)
      ensures t.fields[i].source.NaturalLen().None? ==> t.fields[i].length == width.Bytes()
    {
      ElementsAreNamed(profile.Shapes()[i].source);
    }
  }

  lemma ResolvedIsUnderstood(protocol: Protocol, profile: Profile, width: CounterWidth, templateId: u16)
    requires MIN_TEMPLATE_ID <= templateId
    ensures Understood(Unchecked(protocol, profile, width, templateId))
  {
    hide NameOf, LogicalName, FieldIsSound, AlignUp;
    ResolveSucceedsExactlyWhen(protocol, profile, width, templateId);
    ResolvedFieldsAreUnderstood(protocol, profile, width, templateId);
    ResolvedFieldsAreSound(protocol, profile, width);
  }

  // ---- One field, one record ----

  lemma ByteReads(b: byte)
    ensures FromBE([b]) == b
  {
    assert [b][..0] == [];
  }

  /** Each field decodes to the value its name promises, clamped when the width demands it. */
  lemma FieldRoundTrip(t: Template, f: ResolvedField, e: ConntrackEvent)
    requires FieldIsUnderstood(t, f)
    ensures DecodeValue(LogicalName(f.source), FieldBytes(f, e)) ==
            Ok(Reported(LogicalName(f.source), t.counterWidth.Bytes(), e))
  {
    hide BE, FromBE, NameOf, Pow256, CounterMax, Clamp;
    WordSizes();
    match ValueOf(f.source, e) {
      case Byte(b) => ByteReads(b);
      case Port(p) => FromBEofBE(p, 2);
      case Addr(a) =>
      case Count(n) =>
        ClampIsMin(n, f.length);
        FromBEofBE(Clamp(n, f.length), f.length);
    }
  }

  lemma {:induction false} DescribedOffsets(fields: seq<ResolvedField>, n: nat)
    requires n <= |fields|
    ensures FieldOffset(DescribeFields(fields), n) == Offset(fields, n)
  {
    if n > 0 {
      DescribedOffsets(fields, n - 1);
    }
  }

  lemma {:induction false} RecordPrefixRoundTrip(t: Template, e: ConntrackEvent, n: nat)
    requires Understood(t) && n <= |t.fields|
    ensures |RecordBytes(t.fields, e)| == Offset(t.fields, |t.fields|)
    ensures FieldOffset(DescribeFields(t.fields), n) <= |RecordBytes(t.fields, e)|
    ensures DecodeFields(RecordBytes(t.fields, e), DescribeFields(t.fields), n) ==
            Ok(Report(FieldNames(t.fields, n), t.counterWidth.Bytes(), e))
  {
    hide DecodeValue, FieldBytes, Reported, LogicalName, RecordBytes, FieldIsUnderstood, AlignUp;
    RecordLen(t, e);
    DescribedOffsets(t.fields, n);
    OffsetIsBounded(t.fields, n, |t.fields|);
    if n > 0 {
      var f := t.fields[n - 1];
      RecordPrefixRoundTrip(t, e, n - 1);
      DescribedOffsets(t.fields, n - 1);
      FieldAtItsOffset(t.fields, n - 1, e);
      FieldRoundTrip(t, f, e);
      ReportGrows(FieldNames(t.fields, n - 1), LogicalName(f.source), t.counterWidth.Bytes(), e);
    } else {
      assert Report({}, t.counterWidth.Bytes(), e) == map[];
    }
  }

  lemma {:induction false} OffsetIsBounded(fields: seq<ResolvedField>, i: nat, n: nat)
    requires i <= n <= |fields|
    ensures Offset(fields, i) <= Offset(fields, n)
  {
    if i < n {
      OffsetIsBounded(fields, i, n - 1);
    }
  }

  lemma ReportGrows(names: set<ElementName>, name: ElementName, width: nat, e: ConntrackEvent)
    ensures Report(names, width, e)[name := Reported(name, width, e)] == Report(names + {name}, width, e)
  {
    hide Reported;
  }

  /** A record decodes to exactly the event's reported values under the template's names. */
  lemma RecordRoundTrip(t: Template, e: ConntrackEvent)
    requires Understood(t)
    ensures |RecordBytes(t.fields, e)| == RecordSize(Describe(t)) == t.recordSize
    ensures DecodeFields(RecordBytes(t.fields, e), Describe(t).fields, |Describe(t).fields|) == Ok(FlowOf(t, e))
  {
    hide FieldNames, RecordBytes, DecodeFields, Report, AlignUp, FieldIsUnderstood;
    RecordPrefixRoundTrip(t, e, |t.fields|);
    DescribedOffsets(t.fields, |t.fields|);
  }

  // ---- Which names a profile carries ----

  lemma NamesOfFour(f: seq<ResolvedField>, n: nat)
    requires n + 4 <= |f|
    ensures FieldNames(f, n + 4) == FieldNames(f, n) + {LogicalName(f[n].source), LogicalName(f[n + 1].source),
                                                        LogicalName(f[n + 2].source), LogicalName(f[n + 3].source)}
  {
    hide LogicalName;
    assert FieldNames(f, n + 1) == FieldNames(f, n) + {LogicalName(f[n].source)};
    assert FieldNames(f, n + 2) == FieldNames(f, n + 1) + {LogicalName(f[n + 1].source)};
    assert FieldNames(f, n + 3) == FieldNames(f, n + 2) + {LogicalName(f[n + 2].source)};
  }

  /** The order every profile table follows. */
  function SourceAt(i: nat): FieldSource {
    if i == 0 then NatEvent else if i == 1 then IpProtocol
    else if i == 2 then SrcIp else if i == 3 then DstIp else if i == 4 then SrcPort else if i == 5 then DstPort
    else if i == 6 then PostNatSrcIp else if i == 7 then PostNatSrcPort
    else if i == 8 then PostNatDstIp else if i == 9 then PostNatDstPort
    else if i == 10 then OrigBytes else if i == 11 then OrigPackets
    else if i == 12 then ReplyBytes else ReplyPackets
  }

  /** Where field `i` of a profile sits in that order. */
  function Position(profile: Profile, i: nat): nat {
    match profile
    case Full => i
    case NatSource => if i < 8 then i else i + 2
    case FlowOnly => if i < 5 then i + 1 else i + 5
  }

  ghost predicate Ordered(profile: Profile, f: seq<ResolvedField>) {
    && |f| == DocumentedFieldCount(profile)
    && forall i :: 0 <= i < |f| ==> f[i].source == SourceAt(Position(profile, i))
  }

  lemma TablesAreOrdered(profile: Profile)
    ensures |profile.Shapes()| == DocumentedFieldCount(profile)
    ensures forall i :: 0 <= i < |profile.Shapes()| ==> profile.Shapes()[i].source == SourceAt(Position(profile, i))
  {
  }

  lemma ResolvedIsOrdered(protocol: Protocol, profile: Profile, width: CounterWidth)
    ensures Ordered(profile, ResolveFields(protocol, width, profile.Shapes()))
  {
    TablesAreOrdered(profile);
    hide SourceAt, Position, Profile.Shapes;
  }

  /** The names of fields `n` to `n + 3`, when they sit at positions `p` to `p + 3` of the order. */
  lemma FourNames(f: seq<ResolvedField>, n: nat, p: nat)
    requires n + 4 <= |f|
    requires f[n].source == SourceAt(p) && f[n + 1].source == SourceAt(p + 1)
    requires f[n + 2].source == SourceAt(p + 2) && f[n + 3].source == SourceAt(p + 3)
    ensures FieldNames(f, n + 4) == FieldNames(f, n) + FourAt(p)
  {
    hide LogicalName, SourceAt, FieldNames;
    NamesOfFour(f, n);
  }

  function FourAt(p: nat): set<ElementName> {
    {LogicalName(SourceAt(p)), LogicalName(SourceAt(p + 1)), LogicalName(SourceAt(p + 2)), LogicalName(SourceAt(p + 3))}
  }

  lemma NamesInOrder()
    ensures FourAt(0) == {NatEventCode, ProtocolIdentifier, SourceIPv4Address, DestinationIPv4Address}
    ensures FourAt(1) == {ProtocolIdentifier, SourceIPv4Address, DestinationIPv4Address, SourceTransportPort}
    ensures FourAt(4) == {SourceTransportPort, DestinationTransportPort, PostNATSourceIPv4Address, PostNAPTSourceTransportPort}
    ensures LogicalName(SourceAt(5)) == DestinationTransportPort
  {
  }

  lemma MoreNamesInOrder()
    ensures FourAt(8) == {PostNATDestinationIPv4Address, PostNAPTDestinationTransportPort, OctetDeltaCount, PacketDeltaCount}
    ensures FourAt(10) == {OctetDeltaCount, PacketDeltaCount, ReverseOctetDeltaCount, ReversePacketDeltaCount}
    ensures LogicalName(SourceAt(12)) == ReverseOctetDeltaCount
    ensures LogicalName(SourceAt(13)) == ReversePacketDeltaCount
  {
  }

  lemma FullNamesInFours()
    ensures FourAt(0) + FourAt(4) + FourAt(8) + {LogicalName(SourceAt(12))} + {LogicalName(SourceAt(13))} == FULL_NAMES
  {
    hide FourAt, LogicalName, SourceAt;
    NamesInOrder();
    MoreNamesInOrder();
  }

  lemma NatSourceNamesInFours()
    ensures FourAt(0) + FourAt(4) + FourAt(10) == ProfileNames(NatSource)
  {
    hide FourAt, LogicalName, SourceAt;
    NamesInOrder();
    MoreNamesInOrder();
  }

  lemma FlowOnlyNamesInFours()
    ensures FourAt(1) + {LogicalName(SourceAt(5))} + FourAt(10) == ProfileNames(FlowOnly)
  {
    hide FourAt, LogicalName, SourceAt;
    NamesInOrder();
    MoreNamesInOrder();
  }

  lemma FullFieldNames(f: seq<ResolvedField>)
    requires Ordered(Full, f)
    ensures FieldNames(f, 14) == FULL_NAMES
  {
    hide SourceAt, LogicalName, FourAt;
    FullNamesInFours();
    assert FieldNames(f, 0) + FourAt(0) == FourAt(0);
    FourNames(f, 0, 0);
    FourNames(f, 4, 4);
    FourNames(f, 8, 8);
    assert FieldNames(f, 13) == FieldNames(f, 12) + {LogicalName(SourceAt(12))};
  }

  lemma NatSourceFieldNames(f: seq<ResolvedField>)
    requires Ordered(NatSource, f)
    ensures FieldNames(f, 12) == ProfileNames(NatSource)
  {
    hide SourceAt, LogicalName, FourAt, ProfileNames;
    NatSourceNamesInFours();
    assert FieldNames(f, 0) + FourAt(0) == FourAt(0);
    FourNames(f, 0, 0);
    FourNames(f, 4, 4);
    FourNames(f, 8, 10);
  }

  lemma FlowOnlyFieldNames(f: seq<ResolvedField>)
    requires Ordered(FlowOnly, f)
    ensures FieldNames(f, 9) == ProfileNames(FlowOnly)
  {
    hide SourceAt, LogicalName, FourAt, ProfileNames;
    FlowOnlyNamesInFours();
    assert FieldNames(f, 0) + FourAt(1) == FourAt(1);
    FourNames(f, 0, 1);
    assert FieldNames(f, 5) == FieldNames(f, 4) + {LogicalName(SourceAt(5))};
    FourNames(f, 5, 10);
  }

  /** Each profile's template carries exactly its documented names. */
  lemma ResolvedNames(protocol: Protocol, profile: Profile, width: CounterWidth, templateId: u16)
    ensures var f := Unchecked(protocol, profile, width, templateId).fields;
            FieldNames(f, |f|) == ProfileNames(profile)
  {
    hide FieldNames, ProfileNames, SourceAt, Position;
    var f := Unchecked(protocol, profile, width, templateId).fields;
    ResolvedIsOrdered(protocol, profile, width);
    match profile {
      case Full =>
        FullFieldNames(f);
        FullIsFull();
      case NatSource => NatSourceFieldNames(f);
      case FlowOnly => FlowOnlyFieldNames(f);
    }
  }

  lemma FullIsFull()
    ensures ProfileNames(Full) == FULL_NAMES
  {
  }

  lemma NamesFollowTheOrder(i: nat, j: nat)
    requires i < j < 14
    ensures LogicalName(SourceAt(i)) != LogicalName(SourceAt(j))
  {
  }

  /** No two fields of a resolved template share an element or a name: no decoded field overwrites another. */
  lemma ResolvedNamesAreDistinct(protocol: Protocol, profile: Profile, width: CounterWidth, templateId: u16, i: nat, j: nat)
    requires i < j < |Unchecked(protocol, profile, width, templateId).fields|
    ensures var f := Unchecked(protocol, profile, width, templateId).fields;
            && LogicalName(f[i].source) != LogicalName(f[j].source)
            && (f[i].id, f[i].pen) != (f[j].id, f[j].pen)
  {
    hide LogicalName, SourceAt, NameOf, Profile.Shapes, AlignUp;
    ResolvedIsOrdered(protocol, profile, width);
    ResolvedFieldsAreUnderstood(protocol, profile, width, templateId);
    NamesFollowTheOrder(Position(profile, i), Position(profile, j));
  }

  function Restrict(flow: FlowRecord, names: set<ElementName>): FlowRecord {
    map name | name in flow && name in names :: flow[name]
  }

  /** The narrower profiles report the full record restricted to their own names, under either protocol. */
  lemma NarrowerProfilesRestrict(a: Protocol, b: Protocol, profile: Profile, width: CounterWidth, idA: u16, idB: u16,
                                 e: ConntrackEvent)
    ensures FlowOf(Unchecked(a, profile, width, idA), e) ==
            Restrict(FlowOf(Unchecked(b, Full, width, idB), e), ProfileNames(profile))
  {
    hide FieldNames, Reported, LogicalName;
    ResolvedNames(a, profile, width, idA);
    ResolvedNames(b, Full, width, idB);
    assert ProfileNames(profile) <= ProfileNames(Full);
  }
}
