/** Attributes the parser does not know, inserted inside the attributes it does: invisible to the event at every depth. */
module NetlinkNesting {
  import opened Bytes
  import opened Event
  import opened Netlink
  import opened NetlinkLaws
  import opened NetlinkPrint

  lemma MatchesItself(rel: (Attr, Attr) -> bool, xs: seq<Attr>)
    requires forall x :: rel(x, x)
    ensures Matched(rel, xs, xs)
  {
  }

  /** An attribute may be replaced by a corresponding one wherever it stands. */
  lemma ReplaceAttr(
      host: Endian, rel: (Attr, Attr) -> bool, known: set<nat>,
      pre: seq<byte>, typ: u16, p: seq<byte>, q: seq<byte>, post: seq<byte>)
    requires Tiled(host, pre) && NLA_HDRLEN + |p| < 0x1_0000 && NLA_HDRLEN + |q| < 0x1_0000
    requires (forall x :: rel(x, x)) && rel(Attr(typ % 0x4000, p), Attr(typ % 0x4000, q))
    ensures MatchedByType(rel, known, Split(host, pre + PrintAttr(host, typ, p) + post),
                          Split(host, pre + PrintAttr(host, typ, q) + post))
  {
    hide Split, PrintAttr, Tiled, Matched, OfType;
    SplitAround(host, pre, typ, p, post);
    SplitAround(host, pre, typ, q, post);
    var xs, x, y, ys := Split(host, pre), Attr(typ % 0x4000, p), Attr(typ % 0x4000, q), Split(host, post);
    forall t | t in known
      ensures Matched(rel, OfType(xs + [x] + ys, t), OfType(xs + [y] + ys, t))
    {
      OfTypeAround(xs, x, ys, t);
      OfTypeAround(xs, y, ys, t);
      OneMatched(rel, x, y, t);
      MatchesItself(rel, OfType(xs, t));
      MatchesItself(rel, OfType(ys, t));
      MatchedAppend(rel, OfType(xs, t), OfType(xs, t), OfType([x], t), OfType([y], t));
      MatchedAppend(rel, OfType(xs, t) + OfType([x], t), OfType(xs, t) + OfType([y], t), OfType(ys, t), OfType(ys, t));
    }
  }

  lemma SplitAround(host: Endian, pre: seq<byte>, typ: u16, p: seq<byte>, post: seq<byte>)
    requires Tiled(host, pre) && NLA_HDRLEN + |p| < 0x1_0000
    ensures Split(host, pre + PrintAttr(host, typ, p) + post) ==
            Split(host, pre) + [Attr(typ % 0x4000, p)] + Split(host, post)
  {
    hide Split, PrintAttr, Tiled;
    assert pre + PrintAttr(host, typ, p) + post == pre + (PrintAttr(host, typ, p) + post);
    SplitAppend(host, pre, PrintAttr(host, typ, p) + post);
    SplitPrinted(host, typ, p, post);
  }

  lemma OfTypeAround(xs: seq<Attr>, x: Attr, ys: seq<Attr>, t: nat)
    ensures OfType(xs + [x] + ys, t) == OfType(xs, t) + OfType([x], t) + OfType(ys, t)
  {
    OfTypeAppend(xs + [x], ys, t);
    OfTypeAppend(xs, [x], t);
  }

  lemma OneMatched(rel: (Attr, Attr) -> bool, x: Attr, y: Attr, t: nat)
    requires rel(x, y) && x.typ == y.typ
    ensures Matched(rel, OfType([x], t), OfType([y], t))
  {
    assert [x][1..] == [] && [y][1..] == [];
  }

  lemma RelationsAreReflexive(host: Endian)
    ensures forall x :: TupleRel(host)(x, x)
    ensures forall x :: TreeRel(host)(x, x)
  {
    hide Split, OfType;
    forall x: Attr
      ensures SameTuple(host, x.payload, x.payload)
    {
      forall t | t in TUPLE_TYPES
        ensures Matched(TupleRel(host), OfType(Split(host, x.payload), t), OfType(Split(host, x.payload), t))
      {
        MatchesItself(TupleRel(host), OfType(Split(host, x.payload), t));
      }
    }
  }

  /** Payloads that agree at every depth may be exchanged inside a message without changing its event. */
  lemma PayloadMayChange(
      host: Endian, natEvent: NatEventType, pre: seq<byte>, typ: u16, p: seq<byte>, q: seq<byte>, post: seq<byte>)
    requires Tiled(host, pre) && NLA_HDRLEN + |p| < 0x1_0000 && NLA_HDRLEN + |q| < 0x1_0000
    requires SameTreeAttr(host, Attr(typ % 0x4000, p), Attr(typ % 0x4000, q))
    ensures ParseTree(host, natEvent, pre + PrintAttr(host, typ, p) + post) ==
            ParseTree(host, natEvent, pre + PrintAttr(host, typ, q) + post)
  {
    hide ParseTree, Tiled, PrintAttr, Split, MatchedByType, SameTreeAttr;
    RelationsAreReflexive(host);
    ReplaceAttr(host, TreeRel(host), TREE_TYPES, pre, typ, p, q, post);
    TreeOrderIsIrrelevant(host, natEvent, pre + PrintAttr(host, typ, p) + post, pre + PrintAttr(host, typ, q) + post);
  }

  /** What the loop over a top-level attribute's payload knows. */
  function KnownInside(typ: nat): set<nat> {
    if typ == CTA_TUPLE_ORIG || typ == CTA_TUPLE_REPLY then TUPLE_TYPES else COUNTER_TYPES
  }

  /** What the loop over a tuple attribute's payload knows. */
  function KnownInsideTuple(typ: nat): set<nat> {
    if typ == CTA_TUPLE_IP then IP_TYPES else PROTO_TYPES
  }

  predicate HoldsAttributes(typ: nat) {
    typ == CTA_TUPLE_ORIG || typ == CTA_TUPLE_REPLY || typ == CTA_COUNTERS_ORIG || typ == CTA_COUNTERS_REPLY
  }

  lemma MatchedIfSame(host: Endian, known: set<nat>, xs: seq<Attr>, ys: seq<Attr>)
    requires SameByType(known, xs, ys)
    ensures MatchedByType(TupleRel(host), known, xs, ys)
  {
    hide OfType;
    RelationsAreReflexive(host);
    forall t | t in known
      ensures Matched(TupleRel(host), OfType(xs, t), OfType(ys, t))
    {
      assert OfType(xs, t) == OfType(ys, t);
    }
  }

  /** The insertion is invisible one level down: at any boundary inside any tuple or counters attribute. */
  lemma InvisibleInside(
      host: Endian, natEvent: NatEventType, pre: seq<byte>, typ: u16,
      a: seq<byte>, extra: seq<byte>, b: seq<byte>, post: seq<byte>)
    requires Tiled(host, pre) && HoldsAttributes(typ % 0x4000) && NLA_HDRLEN + |a + extra + b| < 0x1_0000
    requires Tiled(host, a) && Tiled(host, extra) && SameByType(KnownInside(typ % 0x4000), [], Split(host, extra))
    ensures ParseTree(host, natEvent, pre + PrintAttr(host, typ, a + b) + post) ==
            ParseTree(host, natEvent, pre + PrintAttr(host, typ, a + extra + b) + post)
  {
    hide ParseTree, Tiled, PrintAttr, Split, MatchedByType, SameByType;
    var known := KnownInside(typ % 0x4000);
    InsertionKeepsTypes(host, known, a, extra, b);
    MatchedIfSame(host, known, Split(host, a + b), Split(host, a + extra + b));
    PayloadMayChange(host, natEvent, pre, typ, a + b, a + extra + b, post);
  }

  /** And two levels down: at any boundary inside the address or protocol attribute of either tuple. */
  lemma InvisibleInsideTuple(
      host: Endian, natEvent: NatEventType, pre: seq<byte>, typ: u16, inPre: seq<byte>, inner: u16,
      a: seq<byte>, extra: seq<byte>, b: seq<byte>, inPost: seq<byte>, post: seq<byte>)
    requires typ % 0x4000 == CTA_TUPLE_ORIG || typ % 0x4000 == CTA_TUPLE_REPLY
    requires inner % 0x4000 == CTA_TUPLE_IP || inner % 0x4000 == CTA_TUPLE_PROTO
    requires Tiled(host, pre) && Tiled(host, inPre) && NLA_HDRLEN + |a + extra + b| < 0x1_0000
    requires NLA_HDRLEN + |inPre + PrintAttr(host, inner, a + b) + inPost| < 0x1_0000
    requires NLA_HDRLEN + |inPre + PrintAttr(host, inner, a + extra + b) + inPost| < 0x1_0000
    requires Tiled(host, a) && Tiled(host, extra) && SameByType(KnownInsideTuple(inner % 0x4000), [], Split(host, extra))
    ensures ParseTree(host, natEvent, pre + PrintAttr(host, typ, inPre + PrintAttr(host, inner, a + b) + inPost) + post) ==
            ParseTree(host, natEvent,
                      pre + PrintAttr(host, typ, inPre + PrintAttr(host, inner, a + extra + b) + inPost) + post)
  {
    hide ParseTree, Tiled, PrintAttr, Split, MatchedByType, SameByType;
    InsertionKeepsTypes(host, KnownInsideTuple(inner % 0x4000), a, extra, b);
    RelationsAreReflexive(host);
    ReplaceAttr(host, TupleRel(host), TUPLE_TYPES, inPre, inner, a + b, a + extra + b, inPost);
    PayloadMayChange(host, natEvent, pre, typ, inPre + PrintAttr(host, inner, a + b) + inPost,
                     inPre + PrintAttr(host, inner, a + extra + b) + inPost, post);
  }
}
