/** Laws of the netlink parser that hold for arbitrary bytes: order, insertion, truncation, concatenation. */
module NetlinkLaws {
  import opened Bytes
  import opened Event
  import opened Netlink

  // ---- Attribute order only matters within a type ----

  ghost predicate Commutes<S(!new)>(step: (S, Attr) -> S) {
    forall s: S, a: Attr, b: Attr :: a.typ != b.typ ==> step(step(s, a), b) == step(step(s, b), a)
  }

  ghost predicate Ignores<S(!new)>(step: (S, Attr) -> S, known: set<nat>) {
    forall s: S, a: Attr :: a.typ !in known ==> step(s, a) == s
  }

  /** The attributes of one type, in order. */
  function OfType(attrs: seq<Attr>, typ: nat): seq<Attr> {
    if attrs == [] then []
    else (if attrs[0].typ == typ then [attrs[0]] else []) + OfType(attrs[1..], typ)
  }

  /** The two lists agree on every type in `known`, each taken in its own order. */
  ghost predicate SameByType(known: set<nat>, xs: seq<Attr>, ys: seq<Attr>) {
    forall typ :: typ in known ==> OfType(xs, typ) == OfType(ys, typ)
  }

  /** The two lists correspond position by position. */
  ghost predicate Matched(rel: (Attr, Attr) -> bool, xs: seq<Attr>, ys: seq<Attr>) {
    |xs| == |ys| && forall i :: 0 <= i < |xs| ==> rel(xs[i], ys[i])
  }

  /** The two lists correspond on every type in `known`, each taken in its own order. */
  ghost predicate MatchedByType(rel: (Attr, Attr) -> bool, known: set<nat>, xs: seq<Attr>, ys: seq<Attr>) {
    forall typ :: typ in known ==> Matched(rel, OfType(xs, typ), OfType(ys, typ))
  }

  /** Corresponding attributes do the same to every state. */
  ghost predicate Respects<S(!new)>(step: (S, Attr) -> S, rel: (Attr, Attr) -> bool) {
    forall s: S, x: Attr, y: Attr :: rel(x, y) ==> step(s, x) == step(s, y)
  }

  ghost function Equal(): (Attr, Attr) -> bool { (x, y) => x == y }

  lemma SameIsMatched(known: set<nat>, xs: seq<Attr>, ys: seq<Attr>)
    requires SameByType(known, xs, ys)
    ensures MatchedByType(Equal(), known, xs, ys)
  {
    hide OfType;
    forall typ | typ in known
      ensures Matched(Equal(), OfType(xs, typ), OfType(ys, typ))
    {
      assert OfType(xs, typ) == OfType(ys, typ);
    }
  }

  lemma {:induction false} OfTypeAppend(xs: seq<Attr>, ys: seq<Attr>, typ: nat)
    ensures OfType(xs + ys, typ) == OfType(xs, typ) + OfType(ys, typ)
  {
    if xs == [] {
      assert xs + ys == ys;
    } else {
      assert (xs + ys)[1..] == xs[1..] + ys;
      OfTypeAppend(xs[1..], ys, typ);
      var head := if xs[0].typ == typ then [xs[0]] else [];
      assert head + (OfType(xs[1..], typ) + OfType(ys, typ)) == head + OfType(xs[1..], typ) + OfType(ys, typ);
    }
  }

  lemma {:induction false} FoldAppend<S>(step: (S, Attr) -> S, xs: seq<Attr>, ys: seq<Attr>, s: S)
    ensures Fold(step, xs + ys, s) == Fold(step, ys, Fold(step, xs, s))
  {
    if xs == [] {
      assert xs + ys == ys;
    } else {
      assert (xs + ys)[1..] == xs[1..] + ys;
      FoldAppend(step, xs[1..], ys, step(s, xs[0]));
    }
  }

  /** An attribute can be handled before any run of attributes of other types. */
  lemma {:induction false} MoveToFront<S(!new)>(step: (S, Attr) -> S, before: seq<Attr>, a: Attr, after: seq<Attr>, s: S)
    requires Commutes(step)
    requires OfType(before, a.typ) == []
    ensures Fold(step, before + [a] + after, s) == Fold(step, before + after, step(s, a))
  {
    if before == [] {
      assert before + [a] + after == [a] + after && before + after == after;
      FoldOne(step, a, after, s);
    } else {
      var p, rest := before[0], before[1..];
      assert before + [a] + after == [p] + (rest + [a] + after);
      assert before + after == [p] + (rest + after);
      FoldOne(step, p, rest + [a] + after, s);
      MoveToFront(step, rest, a, after, step(s, p));
      FoldOne(step, p, rest + after, step(s, a));
    }
  }

  /** The first attribute of a type that occurs. */
  lemma {:induction false} FirstOfType(xs: seq<Attr>, typ: nat) returns (before: seq<Attr>, a: Attr, after: seq<Attr>)
    requires OfType(xs, typ) != []
    ensures xs == before + [a] + after
    ensures a.typ == typ && OfType(before, typ) == []
    ensures OfType(xs, typ) == [a] + OfType(after, typ)
  {
    if xs[0].typ == typ {
      before, a, after := [], xs[0], xs[1..];
    } else {
      var rest;
      rest, a, after := FirstOfType(xs[1..], typ);
      before := [xs[0]] + rest;
      assert before[1..] == rest;
      assert xs == [xs[0]] + xs[1..];
    }
  }

  lemma {:induction false} UnknownIsIgnored<S(!new)>(step: (S, Attr) -> S, known: set<nat>, xs: seq<Attr>, s: S)
    requires Ignores(step, known) && SameByType(known, [], xs)
    ensures Fold(step, xs, s) == s
  {
    if xs != [] {
      assert xs[0].typ in known ==> OfType(xs, xs[0].typ) != [];
      assert xs[0].typ !in known;
      forall typ | typ in known
        ensures OfType([], typ) == OfType(xs[1..], typ)
      {
        assert OfType([], typ) == OfType(xs, typ);
      }
      UnknownIsIgnored(step, known, xs[1..], s);
    }
  }

  /**
   * A fold whose steps commute across types depends only on what the attributes of each known type mean, in their
   * own order. Interleaving differently, replacing attributes by ones that do the same, or inserting attributes
   * of unknown types changes nothing.
   */
  lemma {:induction false} FoldByType<S(!new)>(
      step: (S, Attr) -> S, known: set<nat>, rel: (Attr, Attr) -> bool, xs: seq<Attr>, ys: seq<Attr>, s: S)
    requires Commutes(step) && Ignores(step, known) && Respects(step, rel) && MatchedByType(rel, known, xs, ys)
    ensures Fold(step, xs, s) == Fold(step, ys, s)
    decreases |xs|
  {
    hide Matched;
    if xs == [] {
      NothingMatchesNothing(rel, known, ys);
      UnknownIsIgnored(step, known, ys, s);
    } else if xs[0].typ !in known {
      forall typ | typ in known
        ensures Matched(rel, OfType(xs[1..], typ), OfType(ys, typ))
      {
        assert Matched(rel, OfType(xs, typ), OfType(ys, typ));
        SkippedType(xs, typ);
      }
      FoldByType(step, known, rel, xs[1..], ys, s);
    } else {
      var a := xs[0];
      assert Matched(rel, OfType(xs, a.typ), OfType(ys, a.typ));
      MatchedHasFirst(rel, xs, ys);
      var before, b, after := FirstOfType(ys, a.typ);
      MatchedHeads(rel, xs, b, OfType(after, a.typ));
      forall typ | typ in known
        ensures Matched(rel, OfType(xs[1..], typ), OfType(before + after, typ))
      {
        assert Matched(rel, OfType(xs, typ), OfType(ys, typ));
        RemovedFromBoth(rel, xs, before, b, after, typ);
      }
      MoveToFront(step, before, b, after, s);
      FoldByType(step, known, rel, xs[1..], before + after, step(s, a));
    }
  }

  lemma NothingMatchesNothing(rel: (Attr, Attr) -> bool, known: set<nat>, ys: seq<Attr>)
    requires MatchedByType(rel, known, [], ys)
    ensures SameByType(known, [], ys)
  {
    forall typ | typ in known
      ensures OfType([], typ) == OfType(ys, typ)
    {
      assert Matched(rel, OfType([], typ), OfType(ys, typ));
    }
  }

  lemma SkippedType(xs: seq<Attr>, typ: nat)
    requires xs != [] && xs[0].typ != typ
    ensures OfType(xs, typ) == OfType(xs[1..], typ)
  {
  }

  lemma MatchedHasFirst(rel: (Attr, Attr) -> bool, xs: seq<Attr>, ys: seq<Attr>)
    requires xs != [] && Matched(rel, OfType(xs, xs[0].typ), OfType(ys, xs[0].typ))
    ensures OfType(ys, xs[0].typ) != []
  {
  }

  lemma MatchedHeads(rel: (Attr, Attr) -> bool, xs: seq<Attr>, b: Attr, rest: seq<Attr>)
    requires xs != [] && Matched(rel, OfType(xs, xs[0].typ), [b] + rest)
    ensures rel(xs[0], b)
  {
    assert OfType(xs, xs[0].typ)[0] == xs[0];
  }

  lemma RemovedFromBoth(rel: (Attr, Attr) -> bool, xs: seq<Attr>, before: seq<Attr>, b: Attr, after: seq<Attr>, typ: nat)
    requires xs != [] && xs[0].typ == b.typ && OfType(before, b.typ) == []
    requires Matched(rel, OfType(xs, typ), OfType(before + [b] + after, typ))
    ensures Matched(rel, OfType(xs[1..], typ), OfType(before + after, typ))
  {
    OfTypeAppend(before + [b], after, typ);
    OfTypeAppend(before, [b], typ);
    OfTypeAppend(before, after, typ);
    assert [b][1..] == [];
    var rest := OfType(xs[1..], typ);
    if b.typ == typ {
      assert OfType(xs, typ) == [xs[0]] + rest;
      assert OfType(before + [b] + after, typ) == [b] + OfType(after, typ);
      assert OfType(before + after, typ) == OfType(after, typ);
      MatchedTails(rel, xs[0], rest, b, OfType(after, typ));
    } else {
      assert OfType([b], typ) == [];
      assert OfType(xs, typ) == rest;
      assert OfType(before, typ) + [] + OfType(after, typ) == OfType(before, typ) + OfType(after, typ);
    }
  }

  lemma MatchedTails(rel: (Attr, Attr) -> bool, x: Attr, xs: seq<Attr>, y: Attr, ys: seq<Attr>)
    requires Matched(rel, [x] + xs, [y] + ys)
    ensures Matched(rel, xs, ys)
  {
    forall i | 0 <= i < |xs|
      ensures rel(xs[i], ys[i])
    {
      assert ([x] + xs)[i + 1] == xs[i] && ([y] + ys)[i + 1] == ys[i];
    }
  }

  lemma MatchedAppend(rel: (Attr, Attr) -> bool, xs: seq<Attr>, ys: seq<Attr>, xs': seq<Attr>, ys': seq<Attr>)
    requires Matched(rel, xs, ys) && Matched(rel, xs', ys')
    ensures Matched(rel, xs + xs', ys + ys')
  {
  }

  // ---- The five loops are such folds ----

  const IP_TYPES: set<nat> := {CTA_IP_V4_SRC, CTA_IP_V4_DST}
  const PROTO_TYPES: set<nat> := {CTA_PROTO_NUM, CTA_PROTO_SRC_PORT, CTA_PROTO_DST_PORT}
  const COUNTER_TYPES: set<nat> := {CTA_COUNTERS_PACKETS, CTA_COUNTERS_BYTES}
  const TUPLE_TYPES: set<nat> := {CTA_TUPLE_IP, CTA_TUPLE_PROTO}
  const TREE_TYPES: set<nat> := {CTA_TUPLE_ORIG, CTA_TUPLE_REPLY, CTA_STATUS, CTA_COUNTERS_ORIG, CTA_COUNTERS_REPLY}

  lemma LeafStepsCommute()
    ensures Commutes(IpStep) && Ignores(IpStep, IP_TYPES)
    ensures Commutes(ProtoStep) && Ignores(ProtoStep, PROTO_TYPES)
    ensures Commutes(CountersStep) && Ignores(CountersStep, COUNTER_TYPES)
  {
    hide ReadU16BE, ReadU64BE;
  }

  lemma TupleStepCommutes(host: Endian)
    ensures Commutes(TupleStep(host)) && Ignores(TupleStep(host), TUPLE_TYPES)
  {
    hide FoldIp, FoldProto;
  }

  lemma TreeStepCommutes(host: Endian)
    ensures Commutes(TreeStep(host)) && Ignores(TreeStep(host), TREE_TYPES)
  {
    hide FoldTuple, ReplyTuple, FoldCounters, ReadU32BE;
  }

  /** Inside an address, protocol or counter attribute, order across types and unknown attributes do not matter. */
  lemma LeafOrderIsIrrelevant(host: Endian, a: seq<byte>, b: seq<byte>, ends: Ends, ports: Ports, counters: Counters)
    ensures SameByType(IP_TYPES, Split(host, a), Split(host, b)) ==> FoldIp(host, a, ends) == FoldIp(host, b, ends)
    ensures SameByType(PROTO_TYPES, Split(host, a), Split(host, b)) ==> FoldProto(host, a, ports) == FoldProto(host, b, ports)
    ensures SameByType(COUNTER_TYPES, Split(host, a), Split(host, b)) ==>
              FoldCounters(host, a, counters) == FoldCounters(host, b, counters)
  {
    hide Split, Fold, SameByType, MatchedByType, Commutes, Ignores, IpStep, ProtoStep, CountersStep;
    LeafStepsCommute();
    if SameByType(IP_TYPES, Split(host, a), Split(host, b)) {
      SameIsMatched(IP_TYPES, Split(host, a), Split(host, b));
      FoldByType(IpStep, IP_TYPES, Equal(), Split(host, a), Split(host, b), ends);
    }
    if SameByType(PROTO_TYPES, Split(host, a), Split(host, b)) {
      SameIsMatched(PROTO_TYPES, Split(host, a), Split(host, b));
      FoldByType(ProtoStep, PROTO_TYPES, Equal(), Split(host, a), Split(host, b), ports);
    }
    if SameByType(COUNTER_TYPES, Split(host, a), Split(host, b)) {
      SameIsMatched(COUNTER_TYPES, Split(host, a), Split(host, b));
      FoldByType(CountersStep, COUNTER_TYPES, Equal(), Split(host, a), Split(host, b), counters);
    }
  }

  // ---- Order at every depth ----

  /** Two attributes of a tuple whose payloads hold the same known attributes, type by type. */
  ghost predicate SameTupleAttr(host: Endian, x: Attr, y: Attr) {
    && x.typ == y.typ
    && (x.typ == CTA_TUPLE_IP ==> SameByType(IP_TYPES, Split(host, x.payload), Split(host, y.payload)))
    && (x.typ == CTA_TUPLE_PROTO ==> SameByType(PROTO_TYPES, Split(host, x.payload), Split(host, y.payload)))
  }

  ghost function TupleRel(host: Endian): (Attr, Attr) -> bool { (x, y) => SameTupleAttr(host, x, y) }

  /** Two tuples that agree type by type, and so do the attributes nested in them. */
  ghost predicate SameTuple(host: Endian, a: seq<byte>, b: seq<byte>) {
    MatchedByType(TupleRel(host), TUPLE_TYPES, Split(host, a), Split(host, b))
  }

  lemma TupleStepRespects(host: Endian)
    ensures Respects(TupleStep(host), TupleRel(host))
  {
    hide FoldIp, FoldProto, SameByType, Split;
    forall s: Tuple, x: Attr, y: Attr | TupleRel(host)(x, y)
      ensures TupleStep(host)(s, x) == TupleStep(host)(s, y)
    {
      LeafOrderIsIrrelevant(host, x.payload, y.payload, s.ends, s.ports, Counters(0, 0));
    }
  }

  /** A tuple reads the same whatever the order across types, in it and in the attributes nested in it. */
  lemma TupleOrderIsIrrelevant(host: Endian, a: seq<byte>, b: seq<byte>, s: Tuple)
    requires SameTuple(host, a, b)
    ensures FoldTuple(host, a, s) == FoldTuple(host, b, s)
  {
    hide Split, Fold, MatchedByType, Commutes, Ignores, Respects, TupleRel, TupleStep;
    TupleStepCommutes(host);
    TupleStepRespects(host);
    FoldByType(TupleStep(host), TUPLE_TYPES, TupleRel(host), Split(host, a), Split(host, b), s);
  }

  /** Two top-level attributes that agree, down to the innermost ones. */
  ghost predicate SameTreeAttr(host: Endian, x: Attr, y: Attr) {
    && x.typ == y.typ
    && (x.typ == CTA_TUPLE_ORIG || x.typ == CTA_TUPLE_REPLY ==> SameTuple(host, x.payload, y.payload))
    && (x.typ == CTA_STATUS ==> x.payload == y.payload)
    && (x.typ == CTA_COUNTERS_ORIG || x.typ == CTA_COUNTERS_REPLY ==>
          SameByType(COUNTER_TYPES, Split(host, x.payload), Split(host, y.payload)))
  }

  ghost function TreeRel(host: Endian): (Attr, Attr) -> bool { (x, y) => SameTreeAttr(host, x, y) }

  /** Two attribute trees with the same attributes, type by type at every depth. */
  ghost predicate SameTree(host: Endian, a: seq<byte>, b: seq<byte>) {
    MatchedByType(TreeRel(host), TREE_TYPES, Split(host, a), Split(host, b))
  }

  lemma TreeStepRespects(host: Endian)
    ensures Respects(TreeStep(host), TreeRel(host))
  {
    hide FoldTuple, FoldCounters, SameTuple, SameByType, Split, ReadU32BE;
    forall s: Conn, x: Attr, y: Attr | TreeRel(host)(x, y)
      ensures TreeStep(host)(s, x) == TreeStep(host)(s, y)
    {
      if x.typ == CTA_TUPLE_ORIG {
        TupleOrderIsIrrelevant(host, x.payload, y.payload, s.orig);
      } else if x.typ == CTA_TUPLE_REPLY {
        TupleOrderIsIrrelevant(host, x.payload, y.payload, s.reply.(ports := s.reply.ports.(protocol := 0)));
      } else if x.typ == CTA_COUNTERS_ORIG {
        LeafOrderIsIrrelevant(host, x.payload, y.payload, NO_ENDS, Ports(0, 0, 0), s.origCounters);
      } else if x.typ == CTA_COUNTERS_REPLY {
        LeafOrderIsIrrelevant(host, x.payload, y.payload, NO_ENDS, Ports(0, 0, 0), s.replyCounters);
      }
    }
  }

  /** Reordering attributes of different types, at any depth, and adding unknown ones leaves the event unchanged. */
  lemma TreeOrderIsIrrelevant(host: Endian, natEvent: NatEventType, a: seq<byte>, b: seq<byte>)
    requires SameTree(host, a, b)
    ensures ParseTree(host, natEvent, a) == ParseTree(host, natEvent, b)
  {
    hide Split, Fold, ToEvent, MatchedByType, Commutes, Ignores, Respects, TreeRel, TreeStep;
    TreeStepCommutes(host);
    TreeStepRespects(host);
    FoldByType(TreeStep(host), TREE_TYPES, TreeRel(host), Split(host, a), Split(host, b), NO_CONN);
  }

  // ---- Runs of complete attributes ----

  /** `data` is nothing but complete attributes, each padded to the alignment. */
  predicate Tiled(host: Endian, data: seq<byte>)
    decreases |data|
  {
    || data == []
    || (AttrAt(host, data, 0)
        && NlaAlign(LenAt(host, data, 0)) <= |data|
        && Tiled(host, data[NlaAlign(LenAt(host, data, 0))..]))
  }

  lemma TiledMeans(host: Endian, data: seq<byte>)
    requires Tiled(host, data) && data != []
    ensures AttrAt(host, data, 0) && |data| >= 4
    ensures 0 < LenAt(host, data, 0) <= NlaAlign(LenAt(host, data, 0)) <= |data|
    ensures Tiled(host, data[NlaAlign(LenAt(host, data, 0))..])
  {
    hide FromNative, AlignUp;
  }

  lemma FirstAttr(host: Endian, data: seq<byte>)
    requires AttrAt(host, data, 0)
    ensures Split(host, data) == [Attr(TypeAt(host, data, 0), data[4..LenAt(host, data, 0)])]
                                 + Split(host, Rest(data, NlaAlign(LenAt(host, data, 0))))
  {
    hide FromNative, AlignUp;
  }

  lemma SameFirstAttr(host: Endian, a: seq<byte>, b: seq<byte>)
    requires AttrAt(host, a, 0) && NlaAlign(LenAt(host, a, 0)) <= |a|
    ensures AttrAt(host, a + b, 0)
    ensures LenAt(host, a + b, 0) == LenAt(host, a, 0) <= |a| && TypeAt(host, a + b, 0) == TypeAt(host, a, 0)
    ensures (a + b)[4..LenAt(host, a, 0)] == a[4..LenAt(host, a, 0)]
    ensures Rest(a + b, NlaAlign(LenAt(host, a, 0))) == a[NlaAlign(LenAt(host, a, 0))..] + b
    ensures Rest(a, NlaAlign(LenAt(host, a, 0))) == a[NlaAlign(LenAt(host, a, 0))..]
  {
    hide FromNative, AlignUp;
    assert (a + b)[0..2] == a[0..2] && (a + b)[2..4] == a[2..4];
  }

  lemma NothingToSplit(host: Endian)
    ensures Split(host, []) == []
    ensures SplitMessages(host, []) == []
  {
  }

  lemma {:induction false} SplitAppend(host: Endian, a: seq<byte>, b: seq<byte>)
    requires Tiled(host, a)
    ensures Split(host, a + b) == Split(host, a) + Split(host, b)
    decreases |a|
  {
    hide *;
    if a == [] {
      assert a + b == b;
      NothingToSplit(host);
    } else {
      TiledMeans(host, a);
      SameFirstAttr(host, a, b);
      FirstAttr(host, a);
      FirstAttr(host, a + b);
      SplitAppend(host, a[NlaAlign(LenAt(host, a, 0))..], b);
    }
  }

  /** Behind complete attributes, one that is too short, claims too little or claims too much ends the loop. */
  lemma DamagedAttributeEndsTheLoop(host: Endian, a: seq<byte>, b: seq<byte>)
    requires Tiled(host, a)
    requires |b| < 4 || FromNative(host, b[0..2]) < 4 || FromNative(host, b[0..2]) > |b|
    ensures Split(host, a + b) == Split(host, a)
  {
    SplitAppend(host, a, b);
    assert !AttrAt(host, b, 0);
  }

  /** Inserting a run of complete attributes of unknown types, at any boundary, leaves the known ones as they are. */
  lemma InsertionKeepsTypes(host: Endian, known: set<nat>, a: seq<byte>, extra: seq<byte>, b: seq<byte>)
    requires Tiled(host, a) && Tiled(host, extra)
    requires SameByType(known, [], Split(host, extra))
    ensures SameByType(known, Split(host, a + b), Split(host, a + extra + b))
  {
    hide Split, Tiled;
    SplitAppend(host, a, b);
    SplitAppend(host, a, extra + b);
    SplitAppend(host, extra, b);
    assert a + extra + b == a + (extra + b);
    var xa, xe, xb := Split(host, a), Split(host, extra), Split(host, b);
    forall typ | typ in known
      ensures OfType(xa + (xe + xb), typ) == OfType(xa + xb, typ)
    {
      OfTypeAppend(xa, xe + xb, typ);
      OfTypeAppend(xe, xb, typ);
      OfTypeAppend(xa, xb, typ);
      assert OfType([], typ) == OfType(xe, typ);
    }
  }

  /**
   * The insertion is invisible to every loop that ignores the unknown types: whichever of the five `step` is,
   * from whatever it has accumulated.
   */
  lemma UnknownAttributesAreInvisible<S(!new)>(
      host: Endian, step: (S, Attr) -> S, known: set<nat>, a: seq<byte>, extra: seq<byte>, b: seq<byte>, s: S)
    requires Ignores(step, known) && Tiled(host, a) && Tiled(host, extra)
    requires SameByType(known, [], Split(host, extra))
    ensures Fold(step, Split(host, a + extra + b), s) == Fold(step, Split(host, a + b), s)
  {
    hide Split, Tiled, Fold, Ignores, SameByType;
    SplitAppend(host, a, b);
    SplitAppend(host, a, extra + b);
    SplitAppend(host, extra, b);
    assert a + extra + b == a + (extra + b);
    var xa, xe, xb := Split(host, a), Split(host, extra), Split(host, b);
    FoldAppend(step, xa, xb, s);
    FoldAppend(step, xa, xe + xb, s);
    FoldAppend(step, xe, xb, Fold(step, xa, s));
    UnknownIsIgnored(step, known, xe, Fold(step, xa, s));
  }

  // ---- Truncation and concatenation of datagrams ----

  ghost predicate IsPrefix<T>(xs: seq<T>, ys: seq<T>) {
    |xs| <= |ys| && xs == ys[..|xs|]
  }

  lemma PrefixOfConsed<T>(x: T, xs: seq<T>, ys: seq<T>)
    requires IsPrefix(xs, ys)
    ensures IsPrefix([x] + xs, [x] + ys)
  {
  }

  /** Cutting a buffer anywhere only drops whole messages from the end. */
  lemma {:induction false} TruncationDropsMessages(host: Endian, buf: seq<byte>, cut: nat)
    requires cut <= |buf|
    ensures IsPrefix(SplitMessages(host, buf[..cut]), SplitMessages(host, buf))
    decreases |buf|
  {
    hide FromNative, AlignUp, IsPrefix;
    var short := buf[..cut];
    if !MessageAt(host, short, 0) {
      EmptyIsPrefix(SplitMessages(host, buf));
    } else {
      assert short[0..4] == buf[0..4] && short[4..6] == buf[4..6];
      var len := MsgLenAt(host, buf, 0);
      var next := NlaAlign(len);
      assert short[16..len] == buf[16..len];
      if next <= cut {
        assert Rest(short, next) == Rest(buf, next)[..cut - next];
        TruncationDropsMessages(host, Rest(buf, next), cut - next);
      } else {
        assert SplitMessages(host, Rest(short, next)) == [];
        EmptyIsPrefix(SplitMessages(host, Rest(buf, next)));
      }
      PrefixOfConsed(NlMessage(MsgTypeAt(host, buf, 0), buf[16..len]),
                     SplitMessages(host, Rest(short, next)), SplitMessages(host, Rest(buf, next)));
    }
  }

  lemma EmptyIsPrefix<T>(ys: seq<T>)
    ensures IsPrefix([], ys)
  {
  }

  lemma {:induction false} EventsOfAppend(host: Endian, xs: seq<NlMessage>, ys: seq<NlMessage>)
    ensures AllEvents(host, xs + ys) == AllEvents(host, xs) + AllEvents(host, ys)
  {
    hide MessageEvents;
    if xs == [] {
      assert xs + ys == ys;
    } else {
      assert (xs + ys)[1..] == xs[1..] + ys;
      EventsOfAppend(host, xs[1..], ys);
    }
  }

  /** The events of a truncated datagram are a prefix of the events of the whole one. */
  lemma TruncationKeepsAPrefix(host: Endian, buf: seq<byte>, cut: nat)
    requires cut <= |buf|
    ensures IsPrefix(ParseEvents(host, buf[..cut]), ParseEvents(host, buf))
  {
    hide SplitMessages, AllEvents;
    TruncationDropsMessages(host, buf, cut);
    var short, all := SplitMessages(host, buf[..cut]), SplitMessages(host, buf);
    assert all == short + all[|short|..];
    EventsOfAppend(host, short, all[|short|..]);
  }

  /** `buf` is nothing but complete messages, each padded to the alignment. */
  predicate TiledMessages(host: Endian, buf: seq<byte>)
    decreases |buf|
  {
    || buf == []
    || (MessageAt(host, buf, 0)
        && NlaAlign(MsgLenAt(host, buf, 0)) <= |buf|
        && TiledMessages(host, buf[NlaAlign(MsgLenAt(host, buf, 0))..]))
  }

  lemma TiledMessagesMeans(host: Endian, buf: seq<byte>)
    requires TiledMessages(host, buf) && buf != []
    ensures MessageAt(host, buf, 0) && |buf| >= NLMSG_HDRLEN
    ensures 0 < MsgLenAt(host, buf, 0) <= NlaAlign(MsgLenAt(host, buf, 0)) <= |buf|
    ensures TiledMessages(host, buf[NlaAlign(MsgLenAt(host, buf, 0))..])
  {
    hide FromNative, AlignUp;
  }

  lemma FirstMessage(host: Endian, buf: seq<byte>)
    requires MessageAt(host, buf, 0)
    ensures SplitMessages(host, buf) == [NlMessage(MsgTypeAt(host, buf, 0), buf[16..MsgLenAt(host, buf, 0)])]
                                        + SplitMessages(host, Rest(buf, NlaAlign(MsgLenAt(host, buf, 0))))
  {
    hide FromNative, AlignUp;
  }

  lemma SameFirstMessage(host: Endian, a: seq<byte>, b: seq<byte>)
    requires MessageAt(host, a, 0) && NlaAlign(MsgLenAt(host, a, 0)) <= |a|
    ensures MessageAt(host, a + b, 0)
    ensures MsgLenAt(host, a + b, 0) == MsgLenAt(host, a, 0) <= |a| && MsgTypeAt(host, a + b, 0) == MsgTypeAt(host, a, 0)
    ensures (a + b)[16..MsgLenAt(host, a, 0)] == a[16..MsgLenAt(host, a, 0)]
    ensures Rest(a + b, NlaAlign(MsgLenAt(host, a, 0))) == a[NlaAlign(MsgLenAt(host, a, 0))..] + b
    ensures Rest(a, NlaAlign(MsgLenAt(host, a, 0))) == a[NlaAlign(MsgLenAt(host, a, 0))..]
  {
    hide FromNative, AlignUp;
    assert (a + b)[0..4] == a[0..4] && (a + b)[4..6] == a[4..6];
  }

  lemma {:induction false} SplitMessagesAppend(host: Endian, a: seq<byte>, b: seq<byte>)
    requires TiledMessages(host, a)
    ensures SplitMessages(host, a + b) == SplitMessages(host, a) + SplitMessages(host, b)
    decreases |a|
  {
    hide *;
    if a == [] {
      assert a + b == b;
      NothingToSplit(host);
    } else {
      TiledMessagesMeans(host, a);
      SameFirstMessage(host, a, b);
      FirstMessage(host, a);
      FirstMessage(host, a + b);
      SplitMessagesAppend(host, a[NlaAlign(MsgLenAt(host, a, 0))..], b);
    }
  }

  /** Parsing distributes over concatenation behind a fully consumed run of messages. */
  lemma ParseAppend(host: Endian, a: seq<byte>, b: seq<byte>)
    requires TiledMessages(host, a)
    ensures ParseEvents(host, a + b) == ParseEvents(host, a) + ParseEvents(host, b)
  {
    hide SplitMessages, AllEvents, TiledMessages;
    SplitMessagesAppend(host, a, b);
    EventsOfAppend(host, SplitMessages(host, a), SplitMessages(host, b));
  }

  /** Behind complete messages, one shorter than its two headers or longer than what is left ends the datagram. */
  lemma DamagedMessageEndsTheDatagram(host: Endian, a: seq<byte>, b: seq<byte>)
    requires TiledMessages(host, a)
    requires |b| < 16 || FromNative(host, b[0..4]) < 20 || FromNative(host, b[0..4]) > |b|
    ensures ParseEvents(host, a + b) == ParseEvents(host, a)
  {
    ParseAppend(host, a, b);
    assert !MessageAt(host, b, 0);
    assert ParseEvents(host, b) == [];
  }
}
