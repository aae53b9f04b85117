/** The netlink printer, and the round trip: parsing what was printed gives back the NAT events in it. */
module NetlinkPrint {
  import opened Bytes
  import opened Event
  import opened Netlink
  import opened NetlinkLaws

  const NLA_F_NESTED: nat := 0x8000

  // ---- Printing ----

  function Padding(len: nat): seq<byte> {
    Zeros(NlaAlign(len) - len)
  }

  function PrintAttr(host: Endian, typ: u16, payload: seq<byte>): seq<byte> {
    Native(host, NLA_HDRLEN + |payload|, 2) + Native(host, typ, 2) + payload + Padding(NLA_HDRLEN + |payload|)
  }

  /** A nested attribute holds the concatenation of its children. */
  function PrintNested(host: Endian, typ: nat, children: seq<byte>): seq<byte>
    requires typ < 0x4000
  {
    PrintAttr(host, typ + NLA_F_NESTED, children)
  }

  function EndsBytes(host: Endian, ends: Ends): seq<byte> {
    PrintAttr(host, CTA_IP_V4_SRC, ends.src) + PrintAttr(host, CTA_IP_V4_DST, ends.dst)
  }

  function PortsBytes(host: Endian, ports: Ports): seq<byte> {
    PrintAttr(host, CTA_PROTO_NUM, [ports.protocol])
    + PrintAttr(host, CTA_PROTO_SRC_PORT, BE(ports.src, 2))
    + PrintAttr(host, CTA_PROTO_DST_PORT, BE(ports.dst, 2))
  }

  function TupleBytes(host: Endian, t: Tuple): seq<byte> {
    PrintNested(host, CTA_TUPLE_IP, EndsBytes(host, t.ends)) + PrintNested(host, CTA_TUPLE_PROTO, PortsBytes(host, t.ports))
  }

  function CountersBytes(host: Endian, c: Counters): seq<byte> {
    PrintAttr(host, CTA_COUNTERS_PACKETS, BE(c.packets, 8)) + PrintAttr(host, CTA_COUNTERS_BYTES, BE(c.bytes, 8))
  }

  function PrintMessage(host: Endian, typ: u16, family: u8, attrs: seq<byte>): seq<byte> {
    var body := [family, 0, 0, 0] + attrs;
    Native(host, NLMSG_HDRLEN + |body|, 4) + Native(host, typ, 2) + Native(host, 0, 2) + Native(host, 0, 4) + Native(host, 0, 4)
    + body + Padding(NLMSG_HDRLEN + |body|)
  }

  /** A conntrack message: its type is the subsystem times 256 plus the message kind. */
  function CtEvent(host: Endian, msgType: u8, family: u8, attrs: seq<byte>): seq<byte> {
    PrintMessage(host, NFNL_SUBSYS_CTNETLINK * 256 + msgType, family, attrs)
  }

  /** A connection-tracking entry as the kernel would report it. Any attribute may be missing. */
  datatype Entry = Entry(
    msgType: u8,
    family: u8,
    orig: Option<Tuple>,
    reply: Option<Tuple>,
    status: Option<u32>,
    origCounters: Option<Counters>,
    replyCounters: Option<Counters>)

  function OptTuple(host: Endian, typ: nat, t: Option<Tuple>): seq<byte>
    requires typ < 0x4000
  {
    match t case None => [] case Some(tuple) => PrintNested(host, typ, TupleBytes(host, tuple))
  }

  function OptCounters(host: Endian, typ: nat, c: Option<Counters>): seq<byte>
    requires typ < 0x4000
  {
    match c case None => [] case Some(counters) => PrintNested(host, typ, CountersBytes(host, counters))
  }

  function OptStatus(host: Endian, status: Option<u32>): seq<byte> {
    match status case None => [] case Some(bits) => PrintAttr(host, CTA_STATUS, BE(bits, 4))
  }

  function EntryAttrs(host: Endian, e: Entry): seq<byte> {
    OptTuple(host, CTA_TUPLE_ORIG, e.orig) + OptTuple(host, CTA_TUPLE_REPLY, e.reply) + OptStatus(host, e.status)
    + OptCounters(host, CTA_COUNTERS_ORIG, e.origCounters) + OptCounters(host, CTA_COUNTERS_REPLY, e.replyCounters)
  }

  function PrintEntry(host: Endian, e: Entry): seq<byte> {
    CtEvent(host, e.msgType, e.family, EntryAttrs(host, e))
  }

  function PrintEntries(host: Endian, entries: seq<Entry>): seq<byte> {
    if entries == [] then [] else PrintEntry(host, entries[0]) + PrintEntries(host, entries[1..])
  }

  // ---- The printer's own loops ----

  /** Push zeros until the vector is aligned. */
  method PadOut(out: seq<byte>) returns (padded: seq<byte>)
    ensures padded == out + Padding(|out|)
  {
    hide AlignUp;
    padded := out;
    var end := NlaAlign(|out|);
    while |padded| % NLA_ALIGNTO != 0
      invariant |out| <= |padded| <= end
      invariant padded == out + Zeros(|padded| - |out|)
      decreases end - |padded|
    {
      assert Zeros(|padded| - |out|) + [0] == Zeros(|padded| + 1 - |out|);
      padded := padded + [0];
    }
    AlignUpIsUnique(|out|, 4, |padded|);
  }

  method BuildAttr(host: Endian, typ: u16, payload: seq<byte>) returns (out: seq<byte>)
    requires NLA_HDRLEN + |payload| < 0x1_0000
    ensures out == PrintAttr(host, typ, payload)
  {
    out := Native(host, NLA_HDRLEN + |payload|, 2);
    out := out + Native(host, typ, 2);
    out := out + payload;
    out := PadOut(out);
  }

  method BuildMessage(host: Endian, typ: u16, family: u8, attrs: seq<byte>) returns (out: seq<byte>)
    requires NLMSG_HDRLEN + 4 + |attrs| < 0x1_0000_0000
    ensures out == PrintMessage(host, typ, family, attrs)
  {
    var body := [family, 0, 0, 0] + attrs;
    out := Native(host, NLMSG_HDRLEN + |body|, 4);
    out := out + Native(host, typ, 2) + Native(host, 0, 2) + Native(host, 0, 4) + Native(host, 0, 4);
    out := out + body;
    out := PadOut(out);
  }

  // ---- What the parser should make of an entry ----

  predicate IsNatEvent(e: Entry) {
    && e.family == NFPROTO_IPV4
    && (e.msgType == IPCTNL_MSG_CT_NEW || e.msgType == IPCTNL_MSG_CT_DELETE)
    && e.status.Some? && HasNatBit(e.status.value)
  }

  function OrElse<T>(o: Option<T>, default: T): T {
    if o.Some? then o.value else default
  }

  /** The event an entry stands for: post-NAT source from the reply's destination, post-NAT destination from its source. */
  function EventOf(e: Entry): ConntrackEvent {
    var orig, reply := OrElse(e.orig, NO_TUPLE), OrElse(e.reply, NO_TUPLE);
    var sent, received := OrElse(e.origCounters, Counters(0, 0)), OrElse(e.replyCounters, Counters(0, 0));
    ConntrackEvent(
      if e.msgType == IPCTNL_MSG_CT_NEW then Create else Delete, orig.ports.protocol,
      orig.ends.src, orig.ends.dst, orig.ports.src, orig.ports.dst,
      reply.ends.dst, reply.ports.dst, reply.ends.src, reply.ports.src,
      sent.bytes, sent.packets, received.bytes, received.packets)
  }

  function NatEvents(entries: seq<Entry>): seq<ConntrackEvent> {
    if entries == [] then []
    else (if IsNatEvent(entries[0]) then [EventOf(entries[0])] else []) + NatEvents(entries[1..])
  }

  // ---- One attribute ----

  lemma {:induction false} SplitPrinted(host: Endian, typ: u16, payload: seq<byte>, rest: seq<byte>)
    requires NLA_HDRLEN + |payload| < 0x1_0000
    ensures Split(host, PrintAttr(host, typ, payload) + rest) == [Attr(typ % 0x4000, payload)] + Split(host, rest)
  {
    hide Native, FromNative, AlignUp, Zeros, Split;
    var len := NLA_HDRLEN + |payload|;
    var a, b, pad := Native(host, len, 2), Native(host, typ, 2), Padding(len);
    var s := a + b + payload + pad + rest;
    assert s[0..2] == a && s[2..4] == b;
    WordSizes();
    FromNativeOfNative(host, len, 2);
    FromNativeOfNative(host, typ, 2);
    assert s[4..len] == payload;
    assert Rest(s, NlaAlign(len)) == rest;
    FirstAttr(host, s);
  }

  lemma FoldPrinted<S>(step: (S, Attr) -> S, host: Endian, typ: u16, payload: seq<byte>, rest: seq<byte>, s: S)
    requires NLA_HDRLEN + |payload| < 0x1_0000
    ensures Fold(step, Split(host, PrintAttr(host, typ, payload) + rest), s) ==
            Fold(step, Split(host, rest), step(s, Attr(typ % 0x4000, payload)))
  {
    hide *;
    SplitPrinted(host, typ, payload, rest);
    FoldOne(step, Attr(typ % 0x4000, payload), Split(host, rest), s);
  }

  lemma FoldLast<S>(step: (S, Attr) -> S, host: Endian, typ: u16, payload: seq<byte>, s: S)
    requires NLA_HDRLEN + |payload| < 0x1_0000
    ensures Fold(step, Split(host, PrintAttr(host, typ, payload)), s) == step(s, Attr(typ % 0x4000, payload))
  {
    hide PrintAttr, Split;
    FoldPrinted(step, host, typ, payload, [], s);
    assert PrintAttr(host, typ, payload) + [] == PrintAttr(host, typ, payload);
    NothingToSplit(host);
  }

  lemma WordsRead(p: u16, q: u32, r: u64)
    ensures ReadU16BE(BE(p, 2)) == p
    ensures ReadU32BE(BE(q, 4)) == q
    ensures ReadU64BE(BE(r, 8)) == r
  {
    hide BE, FromBE, Pow256;
    WordSizes();
    FromBEofBE(p, 2);
    FromBEofBE(q, 4);
    FromBEofBE(r, 8);
    assert BE(p, 2)[..2] == BE(p, 2) && BE(q, 4)[..4] == BE(q, 4) && BE(r, 8)[..8] == BE(r, 8);
  }

  // ---- Leaves ----

  lemma EndsRoundTrip(host: Endian, ends: Ends, s: Ends)
    ensures FoldIp(host, EndsBytes(host, ends), s) == ends
  {
    hide PrintAttr, Split;
    FoldPrinted(IpStep, host, CTA_IP_V4_SRC, ends.src, PrintAttr(host, CTA_IP_V4_DST, ends.dst), s);
    FoldLast(IpStep, host, CTA_IP_V4_DST, ends.dst, IpStep(s, Attr(CTA_IP_V4_SRC, ends.src)));
    assert ends.src[..4] == ends.src && ends.dst[..4] == ends.dst;
  }

  lemma PortsRoundTrip(host: Endian, ports: Ports, s: Ports)
    ensures FoldProto(host, PortsBytes(host, ports), s) == ports
  {
    hide PrintAttr, Split, ReadU16BE, BE;
    var a := PrintAttr(host, CTA_PROTO_NUM, [ports.protocol]);
    var b := PrintAttr(host, CTA_PROTO_SRC_PORT, BE(ports.src, 2));
    var c := PrintAttr(host, CTA_PROTO_DST_PORT, BE(ports.dst, 2));
    assert a + b + c == a + (b + c);
    WordsRead(ports.src, 0, 0);
    WordsRead(ports.dst, 0, 0);
    var s1 := ProtoStep(s, Attr(CTA_PROTO_NUM, [ports.protocol]));
    var s2 := ProtoStep(s1, Attr(CTA_PROTO_SRC_PORT, BE(ports.src, 2)));
    FoldPrinted(ProtoStep, host, CTA_PROTO_NUM, [ports.protocol], b + c, s);
    FoldPrinted(ProtoStep, host, CTA_PROTO_SRC_PORT, BE(ports.src, 2), c, s1);
    FoldLast(ProtoStep, host, CTA_PROTO_DST_PORT, BE(ports.dst, 2), s2);
  }

  lemma CountersRoundTrip(host: Endian, c: Counters, s: Counters)
    ensures FoldCounters(host, CountersBytes(host, c), s) == c
  {
    hide PrintAttr, Split, ReadU64BE, BE;
    WordsRead(0, 0, c.packets);
    WordsRead(0, 0, c.bytes);
    var last := PrintAttr(host, CTA_COUNTERS_BYTES, BE(c.bytes, 8));
    FoldPrinted(CountersStep, host, CTA_COUNTERS_PACKETS, BE(c.packets, 8), last, s);
    FoldLast(CountersStep, host, CTA_COUNTERS_BYTES, BE(c.bytes, 8),
             CountersStep(s, Attr(CTA_COUNTERS_PACKETS, BE(c.packets, 8))));
  }

  // ---- Nested attributes ----

  lemma PrintedLen(host: Endian, typ: u16, payload: seq<byte>)
    ensures |PrintAttr(host, typ, payload)| == NlaAlign(NLA_HDRLEN + |payload|) < |payload| + 8
  {
    hide Native, Zeros, AlignUp;
  }

  lemma NestedSizes(host: Endian, t: Tuple, c: Counters)
    ensures |EndsBytes(host, t.ends)| < 0x100
    ensures |PortsBytes(host, t.ports)| < 0x100
    ensures |TupleBytes(host, t)| < 0x1000
    ensures |CountersBytes(host, c)| < 0x100
  {
    hide PrintAttr, AlignUp, BE;
    PrintedLen(host, CTA_IP_V4_SRC, t.ends.src);
    PrintedLen(host, CTA_IP_V4_DST, t.ends.dst);
    PrintedLen(host, CTA_PROTO_NUM, [t.ports.protocol]);
    PrintedLen(host, CTA_PROTO_SRC_PORT, BE(t.ports.src, 2));
    PrintedLen(host, CTA_PROTO_DST_PORT, BE(t.ports.dst, 2));
    PrintedLen(host, CTA_TUPLE_IP + NLA_F_NESTED, EndsBytes(host, t.ends));
    PrintedLen(host, CTA_TUPLE_PROTO + NLA_F_NESTED, PortsBytes(host, t.ports));
    PrintedLen(host, CTA_COUNTERS_PACKETS, BE(c.packets, 8));
    PrintedLen(host, CTA_COUNTERS_BYTES, BE(c.bytes, 8));
  }

  lemma TupleRoundTrip(host: Endian, t: Tuple, s: Tuple)
    ensures FoldTuple(host, TupleBytes(host, t), s) == t
  {
    hide PrintAttr, Split, EndsBytes, PortsBytes, FoldIp, FoldProto;
    NestedSizes(host, t, Counters(0, 0));
    var ends, ports := EndsBytes(host, t.ends), PortsBytes(host, t.ports);
    EndsRoundTrip(host, t.ends, s.ends);
    PortsRoundTrip(host, t.ports, s.ports);
    FoldPrinted(TupleStep(host), host, CTA_TUPLE_IP + NLA_F_NESTED, ends, PrintNested(host, CTA_TUPLE_PROTO, ports), s);
    FoldLast(TupleStep(host), host, CTA_TUPLE_PROTO + NLA_F_NESTED, ports, s.(ends := t.ends));
  }

  // ---- The attribute tree ----

  lemma TupleAttr(host: Endian, typ: nat, t: Option<Tuple>, rest: seq<byte>, s: Conn)
    requires typ == CTA_TUPLE_ORIG || typ == CTA_TUPLE_REPLY
    requires s.reply.ports.protocol == 0
    ensures Fold(TreeStep(host), Split(host, OptTuple(host, typ, t) + rest), s) ==
            Fold(TreeStep(host), Split(host, rest),
                 if t.None? then s
                 else if typ == CTA_TUPLE_ORIG then s.(orig := t.value)
                 else s.(reply := t.value.(ports := t.value.ports.(protocol := 0))))
  {
    hide PrintAttr, Split, Fold, TupleBytes, FoldTuple;
    match t {
      case None => assert [] + rest == rest;
      case Some(tuple) =>
        NestedSizes(host, tuple, Counters(0, 0));
        TupleRoundTrip(host, tuple, s.orig);
        TupleRoundTrip(host, tuple, s.reply);
        FoldPrinted(TreeStep(host), host, typ + NLA_F_NESTED, TupleBytes(host, tuple), rest, s);
    }
  }

  lemma CountersAttr(host: Endian, typ: nat, c: Option<Counters>, rest: seq<byte>, s: Conn)
    requires typ == CTA_COUNTERS_ORIG || typ == CTA_COUNTERS_REPLY
    ensures Fold(TreeStep(host), Split(host, OptCounters(host, typ, c) + rest), s) ==
            Fold(TreeStep(host), Split(host, rest),
                 if c.None? then s
                 else if typ == CTA_COUNTERS_ORIG then s.(origCounters := c.value)
                 else s.(replyCounters := c.value))
  {
    hide PrintAttr, Split, Fold, CountersBytes, FoldCounters;
    match c {
      case None => assert [] + rest == rest;
      case Some(counters) =>
        NestedSizes(host, NO_TUPLE, counters);
        CountersRoundTrip(host, counters, s.origCounters);
        CountersRoundTrip(host, counters, s.replyCounters);
        FoldPrinted(TreeStep(host), host, typ + NLA_F_NESTED, CountersBytes(host, counters), rest, s);
    }
  }

  lemma StatusAttr(host: Endian, status: Option<u32>, rest: seq<byte>, s: Conn)
    ensures Fold(TreeStep(host), Split(host, OptStatus(host, status) + rest), s) ==
            Fold(TreeStep(host), Split(host, rest), if status.None? then s else s.(status := status))
  {
    hide PrintAttr, Split, Fold, BE, ReadU32BE;
    match status {
      case None => assert [] + rest == rest;
      case Some(bits) =>
        WordsRead(0, bits, 0);
        FoldPrinted(TreeStep(host), host, CTA_STATUS, BE(bits, 4), rest, s);
    }
  }

  /** What the attribute tree of an entry accumulates to. */
  function EntryConn(e: Entry): Conn {
    var reply := OrElse(e.reply, NO_TUPLE);
    Conn(OrElse(e.orig, NO_TUPLE), reply.(ports := reply.ports.(protocol := 0)), e.status,
         OrElse(e.origCounters, Counters(0, 0)), OrElse(e.replyCounters, Counters(0, 0)))
  }

  lemma TreeRoundTrip(host: Endian, e: Entry)
    ensures Fold(TreeStep(host), Split(host, EntryAttrs(host, e)), NO_CONN) == EntryConn(e)
  {
    hide OptTuple, OptCounters, OptStatus, Split, Fold, TreeStep;
    var a, b := OptTuple(host, CTA_TUPLE_ORIG, e.orig), OptTuple(host, CTA_TUPLE_REPLY, e.reply);
    var c := OptStatus(host, e.status);
    var d, f := OptCounters(host, CTA_COUNTERS_ORIG, e.origCounters), OptCounters(host, CTA_COUNTERS_REPLY, e.replyCounters);
    assert EntryAttrs(host, e) == a + (b + (c + (d + (f + []))));
    var s1 := NO_CONN.(orig := OrElse(e.orig, NO_TUPLE));
    var s2 := s1.(reply := EntryConn(e).reply);
    var s3 := s2.(status := e.status);
    var s4 := s3.(origCounters := EntryConn(e).origCounters);
    TupleAttr(host, CTA_TUPLE_ORIG, e.orig, b + (c + (d + (f + []))), NO_CONN);
    TupleAttr(host, CTA_TUPLE_REPLY, e.reply, c + (d + (f + [])), s1);
    StatusAttr(host, e.status, d + (f + []), s2);
    CountersAttr(host, CTA_COUNTERS_ORIG, e.origCounters, f + [], s3);
    CountersAttr(host, CTA_COUNTERS_REPLY, e.replyCounters, [], s4);
    NothingToFold(host, EntryConn(e));
  }

  lemma NothingToFold(host: Endian, s: Conn)
    ensures Fold(TreeStep(host), Split(host, []), s) == s
  {
    NothingToSplit(host);
  }

  // ---- Whole messages and datagrams ----

  lemma PrintedMessage(host: Endian, typ: u16, family: u8, attrs: seq<byte>, rest: seq<byte>)
    requires NLMSG_HDRLEN + 4 + |attrs| < 0x1_0000_0000
    ensures SplitMessages(host, PrintMessage(host, typ, family, attrs) + rest) ==
            [NlMessage(typ, [family, 0, 0, 0] + attrs)] + SplitMessages(host, rest)
  {
    hide Native, FromNative, AlignUp, Zeros, SplitMessages;
    var body := [family, 0, 0, 0] + attrs;
    var len := NLMSG_HDRLEN + |body|;
    var a, b, c := Native(host, len, 4), Native(host, typ, 2), Native(host, 0, 2) + Native(host, 0, 4) + Native(host, 0, 4);
    var s := a + b + c + body + Padding(len) + rest;
    assert s == PrintMessage(host, typ, family, attrs) + rest;
    assert s[0..4] == a && s[4..6] == b;
    WordSizes();
    FromNativeOfNative(host, len, 4);
    FromNativeOfNative(host, typ, 2);
    assert s[16..len] == body;
    assert Rest(s, NlaAlign(len)) == rest;
    FirstMessage(host, s);
  }

  lemma OptTupleLen(host: Endian, typ: nat, t: Option<Tuple>)
    requires typ < 0x4000
    ensures |OptTuple(host, typ, t)| < 0x2000
  {
    hide PrintAttr, TupleBytes, AlignUp;
    if t.Some? {
      NestedSizes(host, t.value, Counters(0, 0));
      PrintedLen(host, typ + NLA_F_NESTED, TupleBytes(host, t.value));
    }
  }

  lemma OptCountersLen(host: Endian, typ: nat, c: Option<Counters>)
    requires typ < 0x4000
    ensures |OptCounters(host, typ, c)| < 0x2000
  {
    hide PrintAttr, CountersBytes, AlignUp;
    if c.Some? {
      NestedSizes(host, NO_TUPLE, c.value);
      PrintedLen(host, typ + NLA_F_NESTED, CountersBytes(host, c.value));
    }
  }

  lemma EntryAttrsLen(host: Endian, e: Entry)
    ensures |EntryAttrs(host, e)| < 0x1_0000
  {
    hide OptTuple, OptCounters, PrintAttr, AlignUp, BE;
    OptTupleLen(host, CTA_TUPLE_ORIG, e.orig);
    OptTupleLen(host, CTA_TUPLE_REPLY, e.reply);
    OptCountersLen(host, CTA_COUNTERS_ORIG, e.origCounters);
    OptCountersLen(host, CTA_COUNTERS_REPLY, e.replyCounters);
    if e.status.Some? {
      PrintedLen(host, CTA_STATUS, BE(e.status.value, 4));
    }
  }

  /** The mask keeps exactly the SRC_NAT and DST_NAT bits of a status word. */
  lemma NatMaskBits(high: nat, dstNat: bool, srcNat: bool, low: nat)
    requires low < 0x10 && high < 0x400_0000
    ensures HasNatBit(high * 0x40 + (if dstNat then 0x20 else 0) + (if srcNat then 0x10 else 0) + low) <==> dstNat || srcNat
  {
    var bits := (if dstNat then 2 else 0) + (if srcNat then 1 else 0);
    DivModUnique(high * 0x40 + bits * 0x10 + low, 0x10, high * 4 + bits, low);
    DivModUnique(high * 4 + bits, 4, high, bits);
  }

  /** Control messages, other subsystems, other conntrack messages and other families never yield an event. */
  lemma OnlyIpv4NewOrDelete(host: Endian, m: NlMessage)
    requires MessageEvents(host, m) != []
    ensures m.typ == 0x100 || m.typ == 0x102
    ensures |m.body| >= 4 && m.body[0] == 2
    ensures |MessageEvents(host, m)| == 1 && MessageEvents(host, m)[0].natEvent == if m.typ == 0x100 then Create else Delete
  {
    hide Fold, Split, TreeStep;
  }

  /** One entry's message carries its event exactly when it is an IPv4 NEW or DELETE with a NAT bit. */
  lemma EntryRoundTrip(host: Endian, e: Entry)
    ensures MessageEvents(host, NlMessage(NFNL_SUBSYS_CTNETLINK * 256 + e.msgType, [e.family, 0, 0, 0] + EntryAttrs(host, e))) ==
            if IsNatEvent(e) then [EventOf(e)] else []
  {
    hide Fold, Split, EntryAttrs, TreeStep;
    TreeRoundTrip(host, e);
    assert ([e.family, 0, 0, 0] + EntryAttrs(host, e))[NFGENMSG_LEN..] == EntryAttrs(host, e);
  }

  /** Parsing any list of printed entries yields exactly its NAT events, in order, ends swapped, on any host. */
  lemma {:induction false} PrintParse(host: Endian, entries: seq<Entry>)
    ensures ParseEvents(host, PrintEntries(host, entries)) == NatEvents(entries)
  {
    hide MessageEvents, EntryAttrs, PrintMessage, SplitMessages, IsNatEvent, EventOf;
    if entries == [] {
      NothingToSplit(host);
    } else {
      var e, rest := entries[0], PrintEntries(host, entries[1..]);
      PrintParse(host, entries[1..]);
      EntryAttrsLen(host, e);
      EntryRoundTrip(host, e);
      PrintedMessage(host, NFNL_SUBSYS_CTNETLINK * 256 + e.msgType, e.family, EntryAttrs(host, e), rest);
      EventsOfOneMore(host, NlMessage(NFNL_SUBSYS_CTNETLINK * 256 + e.msgType, [e.family, 0, 0, 0] + EntryAttrs(host, e)),
                      SplitMessages(host, rest));
    }
  }
}
