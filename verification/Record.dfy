/** The bytes of one data record: each field of the template in turn, oversized counters clamped. */
module Record {
  import opened Bytes
  import opened Event
  import opened Template

  datatype Value = Byte(b: u8) | Port(port: u16) | Addr(addr: Ipv4) | Count(n: u64)

  function ValueOf(source: FieldSource, e: ConntrackEvent): Value {
    match source
    case NatEvent => Byte(e.natEvent.Code())
    case IpProtocol => Byte(e.protocol)
    case SrcIp => Addr(e.srcIp)
    case DstIp => Addr(e.dstIp)
    case SrcPort => Port(e.srcPort)
    case DstPort => Port(e.dstPort)
    case PostNatSrcIp => Addr(e.postNatSrcIp)
    case PostNatSrcPort => Port(e.postNatSrcPort)
    case PostNatDstIp => Addr(e.postNatDstIp)
    case PostNatDstPort => Port(e.postNatDstPort)
    case OrigBytes => Count(e.origBytes)
    case OrigPackets => Count(e.origPackets)
    case ReplyBytes => Count(e.replyBytes)
    case ReplyPackets => Count(e.replyPackets)
  }

  const U64_MAX: u64 := 0xFFFF_FFFF_FFFF_FFFF

  /** The clamping bound: 2^(8 * len) - 1, and never more than a u64 holds. */
  function CounterMax(len: nat): nat {
    if len >= 8 then U64_MAX else Pow256(len) - 1
  }

  function Clamp(v: nat, len: nat): nat {
    if v > CounterMax(len) then CounterMax(len) else v
  }

  /** Clamping is min(v, 2^(8·len) − 1): never a smaller number than the truth unless the field cannot hold it. */
  lemma ClampIsMin(v: u64, len: nat)
    requires len <= 8
    ensures Clamp(v, len) == if v < Pow256(len) then v else Pow256(len) - 1
    ensures v > CounterMax(len) <==> v >= Pow256(len)
  {
    assert Pow256(8) == 0x1_0000_0000_0000_0000;
  }

  // ---- What a record is ----

  function FieldBytes(f: ResolvedField, e: ConntrackEvent): seq<byte> {
    match ValueOf(f.source, e)
    case Byte(b) => [b]
    case Port(p) => BE(p, 2)
    case Addr(a) => a
    case Count(n) => BE(Clamp(n, f.length), f.length)
  }

  /** The fields of a record, in template order. */
  function RecordChunks(fields: seq<ResolvedField>, e: ConntrackEvent): (chunks: seq<seq<byte>>)
    ensures |chunks| == |fields|
    ensures forall i :: 0 <= i < |chunks| ==> chunks[i] == FieldBytes(fields[i], e)
  {
    seq(|fields|, i requires 0 <= i < |fields| => FieldBytes(fields[i], e))
  }

  function RecordBytes(fields: seq<ResolvedField>, e: ConntrackEvent): seq<byte> {
    Flat(RecordChunks(fields, e), |fields|)
  }

  predicate Oversized(f: ResolvedField, e: ConntrackEvent) {
    var v := ValueOf(f.source, e);
    v.Count? && v.n > CounterMax(f.length)
  }

  /** How many of the first `n` fields are clamped for this event. */
  function Saturations(fields: seq<ResolvedField>, n: nat, e: ConntrackEvent): nat
    requires n <= |fields|
  {
    if n == 0 then 0 else Saturations(fields, n - 1, e) + if Oversized(fields[n - 1], e) then 1 else 0
  }

  predicate WidthsAreSound(fields: seq<ResolvedField>) {
    forall i :: 0 <= i < |fields| ==> WidthIsSound(fields[i])
  }

  lemma FieldBytesLen(f: ResolvedField, e: ConntrackEvent)
    requires WidthIsSound(f)
    ensures |FieldBytes(f, e)| == f.length
  {
  }

  lemma {:induction false} ChunkOffsets(fields: seq<ResolvedField>, chunks: seq<seq<byte>>, n: nat)
    requires n <= |fields| == |chunks|
    requires forall i :: 0 <= i < n ==> |chunks[i]| == fields[i].length
    ensures FlatLen(chunks, n) == Offset(fields, n)
  {
    if n > 0 {
      ChunkOffsets(fields, chunks, n - 1);
    }
  }

  lemma FieldOffsets(fields: seq<ResolvedField>, n: nat, e: ConntrackEvent)
    requires n <= |fields| && WidthsAreSound(fields)
    ensures FlatLen(RecordChunks(fields, e), n) == Offset(fields, n)
  {
    forall i | 0 <= i < n
      ensures |RecordChunks(fields, e)[i]| == fields[i].length
    {
      FieldBytesLen(fields[i], e);
    }
    ChunkOffsets(fields, RecordChunks(fields, e), n);
  }

  /** A record is exactly as long as advertised, and field `i` sits exactly where the template says. */
  lemma FieldAtItsOffset(fields: seq<ResolvedField>, i: nat, e: ConntrackEvent)
    requires i < |fields| && WidthsAreSound(fields)
    ensures |RecordBytes(fields, e)| == Offset(fields, |fields|)
    ensures Offset(fields, i) <= Offset(fields, i + 1) <= |RecordBytes(fields, e)|
    ensures RecordBytes(fields, e)[Offset(fields, i)..Offset(fields, i + 1)] == FieldBytes(fields[i], e)
  {
    var chunks := RecordChunks(fields, e);
    FieldOffsets(fields, i, e);
    FieldOffsets(fields, i + 1, e);
    FieldOffsets(fields, |fields|, e);
    ChunkAtItsOffset(chunks, |fields|, i);
  }

  /** The low bytes of a counter are its encoding at the narrower width. */
  lemma {:induction false} LowBytes(v: nat, width: nat, len: nat)
    requires len <= width
    ensures BE(v, width)[width - len..] == BE(v, len)
  {
    if len == 0 {
    } else {
      LowBytes(v / 256, width - 1, len - 1);
    }
  }

  // ---- Writing one ----

  /** One turn of the field loop: write a field's value, clamping and reporting an oversized counter. */
  method WriteField(buf: array<byte>, start: nat, f: ResolvedField, e: ConntrackEvent)
    returns (offset: nat, saturated: nat)
    requires WidthIsSound(f)
    requires start + f.length <= buf.Length
    modifies buf
    ensures |FieldBytes(f, e)| == f.length
    ensures offset == start + f.length
    ensures buf[..] == Splice(old(buf[..]), start, FieldBytes(f, e))
    ensures saturated == if Oversized(f, e) then 1 else 0
  {
    hide *;
    FieldMeans(f, e);
    saturated := 0;
    match ValueOf(f.source, e) {
      case Byte(b) =>
        CopyFromSlice(buf, start, [b]);
        offset := start + 1;
      case Port(p) =>
        CopyFromSlice(buf, start, BE(p, 2));
        offset := start + 2;
      case Addr(a) =>
        CopyFromSlice(buf, start, a);
        offset := start + 4;
      case Count(n) =>
        var max := CounterMax(f.length);
        var value := n;
        if n > max {
          saturated := 1;
          value := max;
        }
        LowBytes(value, 8, f.length);
        CopyFromSlice(buf, start, BE(value, 8)[8 - f.length..]);
        offset := start + f.length;
    }
  }

  /** What a field carries, by the kind of its value. */
  lemma FieldMeans(f: ResolvedField, e: ConntrackEvent)
    requires WidthIsSound(f)
    ensures |FieldBytes(f, e)| == f.length
    ensures match ValueOf(f.source, e)
            case Byte(b) => f.length == 1 && FieldBytes(f, e) == [b] && !Oversized(f, e)
            case Port(p) => f.length == 2 && FieldBytes(f, e) == BE(p, 2) && !Oversized(f, e)
            case Addr(a) => f.length == 4 && FieldBytes(f, e) == a && !Oversized(f, e)
            case Count(n) =>
              && 1 <= f.length <= 8
              && FieldBytes(f, e) == BE(if n > CounterMax(f.length) then CounterMax(f.length) else n, f.length)
              && (Oversized(f, e) <==> n > CounterMax(f.length))
  {
    hide BE, CounterMax;
  }

  method WriteRecord(buf: array<byte>, start: nat, fields: seq<ResolvedField>, e: ConntrackEvent)
    returns (offset: nat, saturated: nat)
    requires WidthsAreSound(fields)
    requires start + |RecordBytes(fields, e)| <= buf.Length
    modifies buf
    ensures offset == start + |RecordBytes(fields, e)|
    ensures buf[..] == Splice(old(buf[..]), start, RecordBytes(fields, e))
    ensures saturated == Saturations(fields, |fields|, e)
  {
    hide FieldBytes, Oversized, Splice;
    offset, saturated := start, 0;
    ghost var was, chunks := buf[..], RecordChunks(fields, e);
    SpliceNothing(was, start);
    for i := 0 to |fields|
      invariant offset == start + FlatLen(chunks, i) <= buf.Length
      invariant buf[..] == Splice(was, start, Flat(chunks, i))
      invariant saturated == Saturations(fields, i, e)
    {
      FlatLenIsMonotone(chunks, i + 1, |fields|);
      FieldBytesLen(fields[i], e);
      var clamped;
      offset, clamped := WriteField(buf, offset, fields[i], e);
      SpliceTwice(was, start, Flat(chunks, i), chunks[i]);
      saturated := saturated + clamped;
    }
  }

  // ---- Clamp accounting ----

  function CountIf(b: bool): nat { if b then 1 else 0 }

  /** How many of an event's four counters exceed what `width` can carry. */
  function OversizedCounters(width: CounterWidth, e: ConntrackEvent): nat {
    var max := CounterMax(width.Bytes());
    CountIf(e.origBytes > max) + CountIf(e.origPackets > max) + CountIf(e.replyBytes > max) + CountIf(e.replyPackets > max)
  }

  lemma {:induction false} NoCounterNoSaturation(fields: seq<ResolvedField>, n: nat, e: ConntrackEvent)
    requires n <= |fields|
    requires forall i :: 0 <= i < n ==> fields[i].source.NaturalLen().Some?
    ensures Saturations(fields, n, e) == 0
  {
    if n > 0 {
      NoCounterNoSaturation(fields, n - 1, e);
    }
  }

  /** The counters in the order every profile lists them. */
  function CounterAt(i: int): FieldSource {
    if i == 0 then OrigBytes else if i == 1 then OrigPackets else if i == 2 then ReplyBytes else ReplyPackets
  }

  /** The four counters, at one width, come last. */
  ghost predicate CountersComeLast(f: seq<ResolvedField>, len: nat) {
    && |f| >= 4
    && (forall i :: 0 <= i < |f| - 4 ==> f[i].source.NaturalLen().Some?)
    && (forall i :: |f| - 4 <= i < |f| ==> f[i].length == len && f[i].source == CounterAt(i - (|f| - 4)))
  }

  lemma TablesEndInCounters(profile: Profile)
    ensures var shapes := profile.Shapes();
            && |shapes| >= 4
            && (forall i :: 0 <= i < |shapes| - 4 ==> shapes[i].source.NaturalLen().Some?)
            && (forall i :: |shapes| - 4 <= i < |shapes| ==>
                  shapes[i].width.Counter? && shapes[i].source == CounterAt(i - (|shapes| - 4)))
  {
  }

  lemma EveryProfileEndsInCounters(protocol: Protocol, profile: Profile, width: CounterWidth, templateId: u16)
    ensures CountersComeLast(Unchecked(protocol, profile, width, templateId).fields, width.Bytes())
  {
    TablesEndInCounters(profile);
    hide Profile.Shapes, CounterAt, AlignUp;
  }

  lemma LastFourSaturations(f: seq<ResolvedField>, width: CounterWidth, e: ConntrackEvent)
    requires CountersComeLast(f, width.Bytes())
    ensures Saturations(f, |f|, e) == OversizedCounters(width, e)
  {
    hide CounterMax;
    var n := |f| - 4;
    assert f[n].source == CounterAt(0) && f[n + 1].source == CounterAt(1);
    assert f[n + 2].source == CounterAt(2) && f[n + 3].source == CounterAt(3);
    NoCounterNoSaturation(f, n, e);
    assert Saturations(f, n + 1, e) == CountIf(Oversized(f[n], e));
    assert Saturations(f, n + 2, e) == Saturations(f, n + 1, e) + CountIf(Oversized(f[n + 1], e));
    assert Saturations(f, n + 3, e) == Saturations(f, n + 2, e) + CountIf(Oversized(f[n + 2], e));
  }

  /** Every profile ends in the four counters, so each oversized one is clamped and counted exactly once. */
  lemma SaturationsAreOversizedCounters(
      protocol: Protocol, profile: Profile, width: CounterWidth, templateId: u16, e: ConntrackEvent)
    ensures var f := Unchecked(protocol, profile, width, templateId).fields;
            Saturations(f, |f|, e) == OversizedCounters(width, e)
  {
    EveryProfileEndsInCounters(protocol, profile, width, templateId);
    LastFourSaturations(Unchecked(protocol, profile, width, templateId).fields, width, e);
  }

  // ---- One body for both protocols ----

  /** IPFIX and v9 describe the same profile differently but write byte-identical records. */
  lemma RecordBodyIsProtocolIndependent(profile: Profile, width: CounterWidth, idA: u16, idB: u16, e: ConntrackEvent)
    ensures RecordBytes(Unchecked(Ipfix, profile, width, idA).fields, e) ==
            RecordBytes(Unchecked(Netflow9, profile, width, idB).fields, e)
  {
    var a := Unchecked(Ipfix, profile, width, idA).fields;
    var b := Unchecked(Netflow9, profile, width, idB).fields;
    assert forall i :: 0 <= i < |a| ==> a[i].source == b[i].source && a[i].length == b[i].length;
    assert RecordChunks(a, e) == RecordChunks(b, e);
  }
}
