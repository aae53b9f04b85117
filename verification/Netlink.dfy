/** The conntrack netlink parser: nested attribute loops, specified as folds over the attributes they meet. */
module Netlink {
  import opened Bytes
  import opened Event

  const NLMSG_HDRLEN: nat := 16
  const NFGENMSG_LEN: nat := 4
  const NLA_HDRLEN: nat := 4
  const NLA_ALIGNTO: nat := 4
  const NLMSG_MIN_TYPE: nat := 0x10
  const NFNL_SUBSYS_CTNETLINK: nat := 1
  const NFPROTO_IPV4: nat := 2
  const IPCTNL_MSG_CT_NEW: nat := 0
  const IPCTNL_MSG_CT_DELETE: nat := 2
  const CTA_TUPLE_ORIG: nat := 1
  const CTA_TUPLE_REPLY: nat := 2
  const CTA_STATUS: nat := 3
  const CTA_COUNTERS_ORIG: nat := 9
  const CTA_COUNTERS_REPLY: nat := 10
  const CTA_TUPLE_IP: nat := 1
  const CTA_TUPLE_PROTO: nat := 2
  const CTA_IP_V4_SRC: nat := 1
  const CTA_IP_V4_DST: nat := 2
  const CTA_PROTO_NUM: nat := 1
  const CTA_PROTO_SRC_PORT: nat := 2
  const CTA_PROTO_DST_PORT: nat := 3
  const CTA_COUNTERS_PACKETS: nat := 1
  const CTA_COUNTERS_BYTES: nat := 2

  // ---- Integers ----

  function ReadU16BE(data: seq<byte>): (v: u16)
    requires |data| >= 2
  {
    BEofFromBE(data[..2]);
    WordSizes();
    FromBE(data[..2])
  }

  function ReadU32BE(data: seq<byte>): (v: u32)
    requires |data| >= 4
  {
    BEofFromBE(data[..4]);
    WordSizes();
    FromBE(data[..4])
  }

  function ReadU64BE(data: seq<byte>): (v: u64)
    requires |data| >= 8
  {
    BEofFromBE(data[..8]);
    WordSizes();
    FromBE(data[..8])
  }

  function NlaAlign(len: nat): nat {
    AlignUp(len, NLA_ALIGNTO)
  }

  // ---- Attributes ----

  /** One attribute: its type without the nested and byte-order flags, and its payload. */
  datatype Attr = Attr(typ: nat, payload: seq<byte>)

  function Rest(data: seq<byte>, at: nat): seq<byte> {
    if at <= |data| then data[at..] else []
  }

  function LenAt(host: Endian, data: seq<byte>, at: nat): nat
    requires at + 4 <= |data|
  {
    FromNative(host, data[at..at + 2])
  }

  /** `& NLA_TYPE_MASK` keeps the low fourteen bits. */
  function TypeAt(host: Endian, data: seq<byte>, at: nat): nat
    requires at + 4 <= |data|
  {
    FromNative(host, data[at + 2..at + 4]) % 0x4000
  }

  /** A complete attribute starts at `at`. */
  predicate AttrAt(host: Endian, data: seq<byte>, at: nat) {
    at + NLA_HDRLEN <= |data| && NLA_HDRLEN <= LenAt(host, data, at) && at + LenAt(host, data, at) <= |data|
  }

  /** The attributes of a buffer, up to the first one that is not complete. */
  function Split(host: Endian, data: seq<byte>): seq<Attr>
    decreases |data|
  {
    if !AttrAt(host, data, 0) then []
    else
      var len := LenAt(host, data, 0);
      [Attr(TypeAt(host, data, 0), data[NLA_HDRLEN..len])] + Split(host, Rest(data, NlaAlign(len)))
  }

  function Fold<S>(step: (S, Attr) -> S, attrs: seq<Attr>, s: S): S {
    if attrs == [] then s else Fold(step, attrs[1..], step(s, attrs[0]))
  }

  /** What one turn of any attribute loop does to what is left to read. */
  lemma SplitAt(host: Endian, data: seq<byte>, at: nat)
    requires at % 4 == 0
    ensures !AttrAt(host, data, at) ==> Split(host, Rest(data, at)) == []
    ensures AttrAt(host, data, at) ==>
              var len := LenAt(host, data, at);
              && Split(host, Rest(data, at)) ==
                 [Attr(TypeAt(host, data, at), data[at + NLA_HDRLEN..at + len])] + Split(host, Rest(data, NlaAlign(at + len)))
              && NlaAlign(at + len) % 4 == 0
              && NlaAlign(at + len) > at
  {
    hide FromNative, AlignUp;
    var rest := Rest(data, at);
    if at + 4 <= |data| {
      SliceOfTail(data, at, 0, 2);
      SliceOfTail(data, at, 2, 4);
      if AttrAt(host, data, at) {
        var len := LenAt(host, data, at);
        AlignTogether(at, len, 4);
        SliceOfTail(data, at, 4, len);
        assert Rest(rest, NlaAlign(len)) == Rest(data, NlaAlign(at + len));
      }
    }
  }

  lemma FoldOne<S>(step: (S, Attr) -> S, a: Attr, rest: seq<Attr>, s: S)
    ensures Fold(step, [a] + rest, s) == Fold(step, rest, step(s, a))
  {
    assert ([a] + rest)[1..] == rest;
  }

  lemma WholeIsRest(data: seq<byte>)
    ensures Rest(data, 0) == data
  {
  }

  lemma FoldNone<S>(step: (S, Attr) -> S, s: S)
    ensures Fold(step, [], s) == s
  {
  }

  // ---- What each loop accumulates ----

  datatype Ends = Ends(src: Ipv4, dst: Ipv4)
  datatype Ports = Ports(protocol: u8, src: u16, dst: u16)
  datatype Tuple = Tuple(ends: Ends, ports: Ports)
  datatype Counters = Counters(bytes: u64, packets: u64)
  datatype Conn = Conn(orig: Tuple, reply: Tuple, status: Option<u32>, origCounters: Counters, replyCounters: Counters)

  const NO_ENDS: Ends := Ends(UNSPECIFIED, UNSPECIFIED)
  const NO_TUPLE: Tuple := Tuple(NO_ENDS, Ports(0, 0, 0))
  const NO_CONN: Conn := Conn(NO_TUPLE, NO_TUPLE, None, Counters(0, 0), Counters(0, 0))

  function IpStep(s: Ends, a: Attr): Ends {
    if a.typ == CTA_IP_V4_SRC && |a.payload| >= 4 then s.(src := a.payload[..4])
    else if a.typ == CTA_IP_V4_DST && |a.payload| >= 4 then s.(dst := a.payload[..4])
    else s
  }

  function ProtoStep(s: Ports, a: Attr): Ports {
    if a.typ == CTA_PROTO_NUM && |a.payload| >= 1 then s.(protocol := a.payload[0])
    else if a.typ == CTA_PROTO_SRC_PORT && |a.payload| >= 2 then s.(src := ReadU16BE(a.payload))
    else if a.typ == CTA_PROTO_DST_PORT && |a.payload| >= 2 then s.(dst := ReadU16BE(a.payload))
    else s
  }

  function CountersStep(s: Counters, a: Attr): Counters {
    if a.typ == CTA_COUNTERS_PACKETS && |a.payload| >= 8 then s.(packets := ReadU64BE(a.payload))
    else if a.typ == CTA_COUNTERS_BYTES && |a.payload| >= 8 then s.(bytes := ReadU64BE(a.payload))
    else s
  }

  function FoldIp(host: Endian, data: seq<byte>, s: Ends): Ends { Fold(IpStep, Split(host, data), s) }

  function FoldProto(host: Endian, data: seq<byte>, s: Ports): Ports { Fold(ProtoStep, Split(host, data), s) }

  function FoldCounters(host: Endian, data: seq<byte>, s: Counters): Counters { Fold(CountersStep, Split(host, data), s) }

  function ApplyTuple(host: Endian, s: Tuple, a: Attr): Tuple {
    if a.typ == CTA_TUPLE_IP then s.(ends := FoldIp(host, a.payload, s.ends))
    else if a.typ == CTA_TUPLE_PROTO then s.(ports := FoldProto(host, a.payload, s.ports))
    else s
  }

  function TupleStep(host: Endian): (Tuple, Attr) -> Tuple { (s, a) => ApplyTuple(host, s, a) }

  function FoldTuple(host: Endian, data: seq<byte>, s: Tuple): Tuple { Fold(TupleStep(host), Split(host, data), s) }

  /** The reply's ends and ports, with its protocol number discarded. */
  function ReplyTuple(host: Endian, data: seq<byte>, s: Tuple): Tuple {
    var read := FoldTuple(host, data, s.(ports := s.ports.(protocol := 0)));
    read.(ports := read.ports.(protocol := 0))
  }

  function ApplyTree(host: Endian, s: Conn, a: Attr): Conn {
    if a.typ == CTA_TUPLE_ORIG then s.(orig := FoldTuple(host, a.payload, s.orig))
    else if a.typ == CTA_TUPLE_REPLY then s.(reply := ReplyTuple(host, a.payload, s.reply))
    else if a.typ == CTA_STATUS then if |a.payload| >= 4 then s.(status := Some(ReadU32BE(a.payload))) else s
    else if a.typ == CTA_COUNTERS_ORIG then s.(origCounters := FoldCounters(host, a.payload, s.origCounters))
    else if a.typ == CTA_COUNTERS_REPLY then s.(replyCounters := FoldCounters(host, a.payload, s.replyCounters))
    else s
  }

  function TreeStep(host: Endian): (Conn, Attr) -> Conn { (s, a) => ApplyTree(host, s, a) }

  /** `status & IPS_NAT_MASK`: the SRC_NAT and DST_NAT bits, 4 and 5. */
  predicate HasNatBit(status: u32) {
    (status / 0x10) % 4 != 0
  }

  /** The reply tuple's ends are the translated ones, with the direction swapped. */
  function ToEvent(natEvent: NatEventType, c: Conn): Option<ConntrackEvent> {
    if c.status.None? || !HasNatBit(c.status.value) then None
    else Some(ConntrackEvent(
      natEvent, c.orig.ports.protocol,
      c.orig.ends.src, c.orig.ends.dst, c.orig.ports.src, c.orig.ports.dst,
      c.reply.ends.dst, c.reply.ports.dst, c.reply.ends.src, c.reply.ports.src,
      c.origCounters.bytes, c.origCounters.packets, c.replyCounters.bytes, c.replyCounters.packets))
  }

  function ParseTree(host: Endian, natEvent: NatEventType, data: seq<byte>): Option<ConntrackEvent> {
    ToEvent(natEvent, Fold(TreeStep(host), Split(host, data), NO_CONN))
  }

  // ---- Messages ----

  /** One netlink message: its type, and everything after the message header. */
  datatype NlMessage = NlMessage(typ: nat, body: seq<byte>)

  function MsgLenAt(host: Endian, buf: seq<byte>, at: nat): nat
    requires at + NLMSG_HDRLEN <= |buf|
  {
    FromNative(host, buf[at..at + 4])
  }

  function MsgTypeAt(host: Endian, buf: seq<byte>, at: nat): nat
    requires at + NLMSG_HDRLEN <= |buf|
  {
    FromNative(host, buf[at + 4..at + 6])
  }

  predicate MessageAt(host: Endian, buf: seq<byte>, at: nat) {
    && at + NLMSG_HDRLEN <= |buf|
    && NLMSG_HDRLEN + NFGENMSG_LEN <= MsgLenAt(host, buf, at)
    && at + MsgLenAt(host, buf, at) <= |buf|
  }

  function SplitMessages(host: Endian, buf: seq<byte>): seq<NlMessage>
    decreases |buf|
  {
    if !MessageAt(host, buf, 0) then []
    else
      var len := MsgLenAt(host, buf, 0);
      [NlMessage(MsgTypeAt(host, buf, 0), buf[NLMSG_HDRLEN..len])] + SplitMessages(host, Rest(buf, NlaAlign(len)))
  }

  /** The event a message carries: IPv4 conntrack NEW or DELETE messages with a NAT status bit, nothing else. */
  function MessageEvents(host: Endian, m: NlMessage): seq<ConntrackEvent> {
    if m.typ < NLMSG_MIN_TYPE || m.typ / 256 != NFNL_SUBSYS_CTNETLINK then []
    else if m.typ % 256 != IPCTNL_MSG_CT_NEW && m.typ % 256 != IPCTNL_MSG_CT_DELETE then []
    else if |m.body| < NFGENMSG_LEN || m.body[0] != NFPROTO_IPV4 then []
    else
      var natEvent := if m.typ % 256 == IPCTNL_MSG_CT_NEW then Create else Delete;
      match ParseTree(host, natEvent, m.body[NFGENMSG_LEN..])
      case None => []
      case Some(e) => [e]
  }

  function AllEvents(host: Endian, messages: seq<NlMessage>): seq<ConntrackEvent> {
    if messages == [] then [] else MessageEvents(host, messages[0]) + AllEvents(host, messages[1..])
  }

  function ParseEvents(host: Endian, buf: seq<byte>): seq<ConntrackEvent> {
    AllEvents(host, SplitMessages(host, buf))
  }

  lemma SplitMessagesAt(host: Endian, buf: seq<byte>, at: nat)
    requires at % 4 == 0
    ensures !MessageAt(host, buf, at) ==> SplitMessages(host, Rest(buf, at)) == []
    ensures MessageAt(host, buf, at) ==>
              var len := MsgLenAt(host, buf, at);
              && SplitMessages(host, Rest(buf, at)) ==
                 [NlMessage(MsgTypeAt(host, buf, at), buf[at + NLMSG_HDRLEN..at + len])]
                 + SplitMessages(host, Rest(buf, NlaAlign(at + len)))
              && NlaAlign(at + len) % 4 == 0
              && NlaAlign(at + len) > at
  {
    hide FromNative, AlignUp;
    var rest := Rest(buf, at);
    if at + 16 <= |buf| {
      SliceOfTail(buf, at, 0, 4);
      SliceOfTail(buf, at, 4, 6);
      if MessageAt(host, buf, at) {
        var len := MsgLenAt(host, buf, at);
        AlignTogether(at, len, 4);
        SliceOfTail(buf, at, 16, len);
        assert Rest(rest, NlaAlign(len)) == Rest(buf, NlaAlign(at + len));
      }
    }
  }

  lemma EventsOfOneMore(host: Endian, m: NlMessage, rest: seq<NlMessage>)
    ensures AllEvents(host, [m] + rest) == MessageEvents(host, m) + AllEvents(host, rest)
  {
    hide MessageEvents;
    assert ([m] + rest)[1..] == rest;
  }

  // ---- The loops ----

  method ParseTupleIp(host: Endian, data: seq<byte>, src0: Ipv4, dst0: Ipv4) returns (src: Ipv4, dst: Ipv4)
    ensures Ends(src, dst) == FoldIp(host, data, Ends(src0, dst0))
  {
    hide Split, FromNative, NlaAlign, Rest, Fold;
    src, dst := src0, dst0;
    var offset := 0;
    WholeIsRest(data);
    while offset + NLA_HDRLEN <= |data|
      invariant offset % 4 == 0
      invariant Fold(IpStep, Split(host, Rest(data, offset)), Ends(src, dst)) == FoldIp(host, data, Ends(src0, dst0))
      decreases |data| - offset
    {
      SplitAt(host, data, offset);
      var len, typ := LenAt(host, data, offset), TypeAt(host, data, offset);
      if len < NLA_HDRLEN || offset + len > |data| {
        FoldNone(IpStep, Ends(src, dst));
        return;
      }
      var payload := data[offset + NLA_HDRLEN..offset + len];
      FoldOne(IpStep, Attr(typ, payload), Split(host, Rest(data, NlaAlign(offset + len))), Ends(src, dst));
      if typ == CTA_IP_V4_SRC && |payload| >= 4 {
        src := payload[..4];
      } else if typ == CTA_IP_V4_DST && |payload| >= 4 {
        dst := payload[..4];
      }
      offset := NlaAlign(offset + len);
    }
    SplitAt(host, data, offset);
    FoldNone(IpStep, Ends(src, dst));
  }

  method ParseTupleProto(host: Endian, data: seq<byte>, protocol0: u8, src0: u16, dst0: u16)
    returns (protocol: u8, src: u16, dst: u16)
    ensures Ports(protocol, src, dst) == FoldProto(host, data, Ports(protocol0, src0, dst0))
  {
    hide Split, FromNative, NlaAlign, Rest, Fold, ReadU16BE;
    protocol, src, dst := protocol0, src0, dst0;
    var offset := 0;
    WholeIsRest(data);
    while offset + NLA_HDRLEN <= |data|
      invariant offset % 4 == 0
      invariant Fold(ProtoStep, Split(host, Rest(data, offset)), Ports(protocol, src, dst)) ==
                FoldProto(host, data, Ports(protocol0, src0, dst0))
      decreases |data| - offset
    {
      SplitAt(host, data, offset);
      var len, typ := LenAt(host, data, offset), TypeAt(host, data, offset);
      if len < NLA_HDRLEN || offset + len > |data| {
        FoldNone(ProtoStep, Ports(protocol, src, dst));
        return;
      }
      var payload := data[offset + NLA_HDRLEN..offset + len];
      FoldOne(ProtoStep, Attr(typ, payload), Split(host, Rest(data, NlaAlign(offset + len))), Ports(protocol, src, dst));
      if typ == CTA_PROTO_NUM && |payload| >= 1 {
        protocol := payload[0];
      } else if typ == CTA_PROTO_SRC_PORT && |payload| >= 2 {
        src := ReadU16BE(payload);
      } else if typ == CTA_PROTO_DST_PORT && |payload| >= 2 {
        dst := ReadU16BE(payload);
      }
      offset := NlaAlign(offset + len);
    }
    SplitAt(host, data, offset);
    FoldNone(ProtoStep, Ports(protocol, src, dst));
  }

  method ParseCounters(host: Endian, data: seq<byte>, bytes0: u64, packets0: u64) returns (bytes: u64, packets: u64)
    ensures Counters(bytes, packets) == FoldCounters(host, data, Counters(bytes0, packets0))
  {
    hide Split, FromNative, NlaAlign, Rest, Fold, ReadU64BE;
    bytes, packets := bytes0, packets0;
    var offset := 0;
    WholeIsRest(data);
    while offset + NLA_HDRLEN <= |data|
      invariant offset % 4 == 0
      invariant Fold(CountersStep, Split(host, Rest(data, offset)), Counters(bytes, packets)) ==
                FoldCounters(host, data, Counters(bytes0, packets0))
      decreases |data| - offset
    {
      SplitAt(host, data, offset);
      var len, typ := LenAt(host, data, offset), TypeAt(host, data, offset);
      if len < NLA_HDRLEN || offset + len > |data| {
        FoldNone(CountersStep, Counters(bytes, packets));
        return;
      }
      var payload := data[offset + NLA_HDRLEN..offset + len];
      FoldOne(CountersStep, Attr(typ, payload), Split(host, Rest(data, NlaAlign(offset + len))), Counters(bytes, packets));
      if typ == CTA_COUNTERS_PACKETS && |payload| >= 8 {
        packets := ReadU64BE(payload);
      } else if typ == CTA_COUNTERS_BYTES && |payload| >= 8 {
        bytes := ReadU64BE(payload);
      }
      offset := NlaAlign(offset + len);
    }
    SplitAt(host, data, offset);
    FoldNone(CountersStep, Counters(bytes, packets));
  }

  method ParseTuple(host: Endian, data: seq<byte>, s0: Tuple) returns (s: Tuple)
    ensures s == FoldTuple(host, data, s0)
  {
    hide Split, FromNative, NlaAlign, Rest, Fold, FoldIp, FoldProto;
    s := s0;
    var offset := 0;
    WholeIsRest(data);
    while offset + NLA_HDRLEN <= |data|
      invariant offset % 4 == 0
      invariant Fold(TupleStep(host), Split(host, Rest(data, offset)), s) == FoldTuple(host, data, s0)
      decreases |data| - offset
    {
      SplitAt(host, data, offset);
      var len, typ := LenAt(host, data, offset), TypeAt(host, data, offset);
      if len < NLA_HDRLEN || offset + len > |data| {
        FoldNone(TupleStep(host), s);
        return;
      }
      var payload := data[offset + NLA_HDRLEN..offset + len];
      FoldOne(TupleStep(host), Attr(typ, payload), Split(host, Rest(data, NlaAlign(offset + len))), s);
      if typ == CTA_TUPLE_IP {
        var src, dst := ParseTupleIp(host, payload, s.ends.src, s.ends.dst);
        s := s.(ends := Ends(src, dst));
      } else if typ == CTA_TUPLE_PROTO {
        var protocol, src, dst := ParseTupleProto(host, payload, s.ports.protocol, s.ports.src, s.ports.dst);
        s := s.(ports := Ports(protocol, src, dst));
      }
      offset := NlaAlign(offset + len);
    }
    SplitAt(host, data, offset);
    FoldNone(TupleStep(host), s);
  }

  /** The body of the attribute tree loop, for one attribute. */
  method ReadTreeAttr(host: Endian, s0: Conn, typ: nat, payload: seq<byte>) returns (s: Conn)
    ensures s == ApplyTree(host, s0, Attr(typ, payload))
  {
    hide FoldTuple, FoldCounters, ReadU32BE;
    s := s0;
    if typ == CTA_TUPLE_ORIG {
      var tuple := ParseTuple(host, payload, s.orig);
      s := s.(orig := tuple);
    } else if typ == CTA_TUPLE_REPLY {
      var repeatedProto := s.reply.(ports := s.reply.ports.(protocol := 0));
      var tuple := ParseTuple(host, payload, repeatedProto);
      s := s.(reply := tuple.(ports := tuple.ports.(protocol := 0)));
    } else if typ == CTA_STATUS {
      if |payload| >= 4 {
        s := s.(status := Some(ReadU32BE(payload)));
      }
    } else if typ == CTA_COUNTERS_ORIG {
      var bytes, packets := ParseCounters(host, payload, s.origCounters.bytes, s.origCounters.packets);
      s := s.(origCounters := Counters(bytes, packets));
    } else if typ == CTA_COUNTERS_REPLY {
      var bytes, packets := ParseCounters(host, payload, s.replyCounters.bytes, s.replyCounters.packets);
      s := s.(replyCounters := Counters(bytes, packets));
    }
  }

  method ParseNlaTree(host: Endian, natEvent: NatEventType, data: seq<byte>) returns (r: Option<ConntrackEvent>)
    ensures r == ParseTree(host, natEvent, data)
  {
    hide Split, FromNative, NlaAlign, Rest, Fold, ApplyTree, ToEvent;
    var s := NO_CONN;
    var offset := 0;
    WholeIsRest(data);
    while offset + NLA_HDRLEN <= |data|
      invariant offset % 4 == 0
      invariant Fold(TreeStep(host), Split(host, Rest(data, offset)), s) == Fold(TreeStep(host), Split(host, data), NO_CONN)
      decreases |data| - offset
    {
      SplitAt(host, data, offset);
      var len, typ := LenAt(host, data, offset), TypeAt(host, data, offset);
      if len < NLA_HDRLEN || offset + len > |data| {
        break;
      }
      var payload := data[offset + NLA_HDRLEN..offset + len];
      FoldOne(TreeStep(host), Attr(typ, payload), Split(host, Rest(data, NlaAlign(offset + len))), s);
      s := ReadTreeAttr(host, s, typ, payload);
      offset := NlaAlign(offset + len);
    }
    SplitAt(host, data, offset);
    FoldNone(TreeStep(host), s);
    r := ToEvent(natEvent, s);
  }

  method ParseConntrackMessages(host: Endian, buf: seq<byte>) returns (events: seq<ConntrackEvent>)
    ensures events == ParseEvents(host, buf)
  {
    hide SplitMessages, FromNative, NlaAlign, Rest, MessageEvents, AllEvents;
    events := [];
    var offset := 0;
    WholeIsRest(buf);
    assert events + AllEvents(host, SplitMessages(host, buf)) == ParseEvents(host, buf);
    hide ParseEvents;
    while offset + NLMSG_HDRLEN <= |buf|
      invariant offset % 4 == 0
      invariant events + AllEvents(host, SplitMessages(host, Rest(buf, offset))) == ParseEvents(host, buf)
      decreases |buf| - offset
    {
      SplitMessagesAt(host, buf, offset);
      var len, typ := MsgLenAt(host, buf, offset), MsgTypeAt(host, buf, offset);
      if len < NLMSG_HDRLEN + NFGENMSG_LEN || offset + len > |buf| {
        break;
      }
      ghost var m := NlMessage(typ, buf[offset + NLMSG_HDRLEN..offset + len]);
      ghost var rest := SplitMessages(host, Rest(buf, NlaAlign(offset + len)));
      EventsOfOneMore(host, m, rest);
      var found := ReadMessage(host, typ, buf, offset, len);
      assert events + (found + AllEvents(host, rest)) == events + found + AllEvents(host, rest);
      events := events + found;
      offset := NlaAlign(offset + len);
    }
    SplitMessagesAt(host, buf, offset);
    NoMessagesNoEvents(host);
  }

  /** The body of the message loop, for one message. */
  method ReadMessage(host: Endian, typ: nat, buf: seq<byte>, offset: nat, len: nat) returns (events: seq<ConntrackEvent>)
    requires NLMSG_HDRLEN + NFGENMSG_LEN <= len && offset + len <= |buf|
    ensures events == MessageEvents(host, NlMessage(typ, buf[offset + NLMSG_HDRLEN..offset + len]))
  {
    hide ParseTree;
    if typ < NLMSG_MIN_TYPE || typ / 256 != NFNL_SUBSYS_CTNETLINK {
      return [];
    }
    var msgType := typ % 256;
    if msgType != IPCTNL_MSG_CT_NEW && msgType != IPCTNL_MSG_CT_DELETE {
      return [];
    }
    var natEvent := if msgType == IPCTNL_MSG_CT_NEW then Create else Delete;
    if buf[offset + NLMSG_HDRLEN] != NFPROTO_IPV4 {
      return [];
    }
    var start, end := offset + NLMSG_HDRLEN + NFGENMSG_LEN, offset + len;
    var found := ParseNlaTree(host, natEvent, buf[start..end]);
    assert buf[offset + NLMSG_HDRLEN..offset + len][NFGENMSG_LEN..] == buf[start..end];
    match found {
      case None => return [];
      case Some(e) => return [e];
    }
  }

  lemma NoMessagesNoEvents(host: Endian)
    ensures AllEvents(host, []) == []
  {
  }
}
