/** Which datagrams the collector refuses, said on their bytes. */
module CollectorRefusals {
  import opened Bytes
  import opened Collector

  // ---- Headers ----

  /** The header is refused exactly for these reasons, in this order. */
  lemma HeadRefusals(d: seq<byte>)
    ensures |d| < 4 ==> ReadHead(d) == Err(DatagramTooShort)
    ensures |d| >= 4 && U16At(d, 0) != 9 && U16At(d, 0) != 10 ==> ReadHead(d) == Err(UnknownVersion)
    ensures |d| >= 4 && U16At(d, 0) == 10 && |d| < 16 ==> ReadHead(d) == Err(ShortHeader)
    ensures |d| >= 16 && U16At(d, 0) == 10 && U16At(d, 2) != |d| ==> ReadHead(d) == Err(LengthMismatch)
    ensures |d| >= 4 && U16At(d, 0) == 9 && |d| < 20 ==> ReadHead(d) == Err(ShortHeader)
    ensures ReadHead(d).Ok? <==>
              || (|d| >= 16 && U16At(d, 0) == 10 && U16At(d, 2) == |d|)
              || (|d| >= 20 && U16At(d, 0) == 9)
  {
    hide U16At, U32At;
  }

  /** Where the sets begin and which set id means templates. */
  lemma HeadPlaces(d: seq<byte>)
    requires ReadHead(d).Ok?
    ensures var h := ReadHead(d).value;
            && h.version == U16At(d, 0)
            && h.length == (if h.version == 10 then 16 else 20)
            && h.templateSetId == (if h.version == 10 then 2 else 0)
  {
    hide U16At, U32At;
  }

  // ---- Element names ----

  /** Elements a message can tell apart get names a record can tell apart, registered or not. */
  lemma NamesAreDistinct(id: nat, pen: Option<nat>, id': nat, pen': Option<nat>, version: nat)
    requires version == 10 || (version == 9 && pen == None && pen' == None)
    requires NameOf(id, pen, version) == NameOf(id', pen', version)
    ensures id == id' && pen == pen'
  {
  }

  /** An element outside the registry is named by its own id and enterprise number. */
  lemma UnregisteredNames(id: nat, pen: Option<nat>)
    requires RegistryName(pen, id).None?
    ensures NameOf(id, pen, 10) == if pen.Some? then EnterpriseElement(pen.value, id) else UnknownElement(id)
  {
  }

  // ---- Templates and records ----

  /** A field specifier is refused exactly for these reasons. */
  lemma SpecifierRefusals(payload: seq<byte>, version: nat, at: nat)
    requires version == 9 || version == 10
    ensures at + 4 > |payload| ==> ParseField(payload, version, at) == Err(TemplateOverruns)
    ensures at + 4 <= |payload| && U16At(payload, at) >= 0x8000 && version == 9 ==>
              ParseField(payload, version, at) == Err(EnterpriseUnderV9)
    ensures at + 4 <= |payload| < at + 8 && U16At(payload, at) >= 0x8000 && version == 10 ==>
              ParseField(payload, version, at) == Err(EnterpriseOverruns)
    ensures ParseField(payload, version, at).Ok? <==>
              || (at + 4 <= |payload| && U16At(payload, at) < 0x8000)
              || (at + 8 <= |payload| && version == 10)
  {
    hide U16At, U32At, NameOf;
  }

  /** A template with a field named as an address that is not four bytes long. */
  predicate HasBadAddress(fields: seq<CField>, n: nat)
    requires n <= |fields|
  {
    exists i :: 0 <= i < n && fields[i].name.IsAddress() && fields[i].length != 4
  }

  lemma {:induction false} FieldsRefused(raw: seq<byte>, fields: seq<CField>, n: nat)
    requires n <= |fields| && FieldOffset(fields, n) <= |raw|
    ensures DecodeFields(raw, fields, n).Err? <==> HasBadAddress(fields, n)
  {
    hide FromBE;
    if n > 0 {
      FieldsRefused(raw, fields, n - 1);
    }
  }

  lemma {:induction false} RecordsRefused(payload: seq<byte>, t: CTemplate, n: nat)
    requires n * RecordSize(t) <= |payload|
    ensures DecodeRecords(payload, t, n).Err? <==> n > 0 && HasBadAddress(t.fields, |t.fields|)
  {
    hide DecodeFields, HasBadAddress, FieldOffset;
    if n > 0 {
      MulIsMonotone(n, n, RecordSize(t));
      RecordsRefused(payload, t, n - 1);
      var raw := payload[(n - 1) * RecordSize(t)..n * RecordSize(t)];
      assert n * RecordSize(t) == (n - 1) * RecordSize(t) + RecordSize(t);
      FieldsRefused(raw, t.fields, |t.fields|);
    }
  }

  /** A data set is refused exactly when its records are empty, or it holds one with an address of the wrong length. */
  lemma DataSetRefusedExactlyWhen(payload: seq<byte>, t: CTemplate)
    ensures ParseRecords(payload, t).Err? <==>
              RecordSize(t) == 0 || (|payload| >= RecordSize(t) && HasBadAddress(t.fields, |t.fields|))
  {
    hide RecordSize, DecodeRecords, HasBadAddress;
    if RecordSize(t) > 0 {
      var n := WholeRecords(payload, RecordSize(t));
      RecordsRefused(payload, t, n);
      if n > 0 {
        MulIsMonotone(1, n, RecordSize(t));
      }
    }
  }

  // ---- Sets ----

  /** A whole set lies at `at`. */
  predicate WholeSetAt(d: seq<byte>, at: nat) {
    at + 4 <= |d| && U16At(d, at + 2) >= 4 && at + U16At(d, at + 2) <= |d|
  }

  function PayloadAt(d: seq<byte>, at: nat): seq<byte>
    requires WholeSetAt(d, at)
  {
    d[at + 4..at + U16At(d, at + 2)]
  }

  /** The set at `at` cannot be read by a collector that has gathered `g`. */
  predicate Refused(d: seq<byte>, version: nat, templateSetId: nat, at: nat, g: Gathered) {
    && at + 4 <= |d|
    && (|| U16At(d, at + 2) < 4
        || at + U16At(d, at + 2) > |d|
        || (U16At(d, at) != templateSetId && U16At(d, at) < 256)
        || (U16At(d, at) == templateSetId && ParseTemplates(PayloadAt(d, at), version, 0).Err?)
        || (&& U16At(d, at) != templateSetId && U16At(d, at) in g.table
            && ParseRecords(PayloadAt(d, at), g.table[U16At(d, at)]).Err?))
  }

  /** What reading the set at `at` adds, when it is not refused. */
  function Gather(d: seq<byte>, version: nat, templateSetId: nat, at: nat, g: Gathered): Gathered
    requires at + 4 <= |d| && !Refused(d, version, templateSetId, at, g)
  {
    if U16At(d, at) == templateSetId then
      var templates := ParseTemplates(PayloadAt(d, at), version, 0).value;
      Gathered(Register(g.table, templates), g.templates + templates, g.records)
    else if U16At(d, at) in g.table then
      g.(records := g.records + ParseRecords(PayloadAt(d, at), g.table[U16At(d, at)]).value)
    else g
  }

  /** Reading on from `from` with `g` comes to a refused set. */
  predicate ComesToRefusal(d: seq<byte>, version: nat, templateSetId: nat, from: nat, g: Gathered)
    decreases |d| - from
  {
    && from + 4 <= |d|
    && (|| Refused(d, version, templateSetId, from, g)
        || ComesToRefusal(d, version, templateSetId, from + U16At(d, from + 2), Gather(d, version, templateSetId, from, g)))
  }

  lemma OneSetRead(d: seq<byte>, version: nat, templateSetId: nat, at: nat, g: Gathered)
    requires at + 4 <= |d|
    ensures Refused(d, version, templateSetId, at, g) ==>
              && ReadSets(d, version, templateSetId, at, g).error.Some?
              && ReadSets(d, version, templateSetId, at, g).g == g
    ensures U16At(d, at + 2) < 4 ==> ReadSets(d, version, templateSetId, at, g).error == Some(SetTooShort)
    ensures U16At(d, at + 2) >= 4 && at + U16At(d, at + 2) > |d| ==>
              ReadSets(d, version, templateSetId, at, g).error == Some(SetOverruns)
    ensures WholeSetAt(d, at) && U16At(d, at) != templateSetId && U16At(d, at) < 256 ==>
              ReadSets(d, version, templateSetId, at, g).error == Some(SetIdReserved)
    ensures !Refused(d, version, templateSetId, at, g) ==>
              ReadSets(d, version, templateSetId, at, g) ==
              ReadSets(d, version, templateSetId, at + U16At(d, at + 2), Gather(d, version, templateSetId, at, g))
  {
    hide U16At, ParseTemplates, ParseRecords, Register;
  }

  /** Reading fails exactly when it comes to a refused set. */
  lemma {:induction false} FailsExactlyOnRefusal(d: seq<byte>, version: nat, templateSetId: nat, at: nat, g: Gathered)
    ensures ReadSets(d, version, templateSetId, at, g).error.Some? <==> ComesToRefusal(d, version, templateSetId, at, g)
    decreases |d| - at
  {
    hide U16At, ReadSets, Refused, Gather;
    if at + 4 <= |d| {
      OneSetRead(d, version, templateSetId, at, g);
      if !Refused(d, version, templateSetId, at, g) {
        SetsAdvance(d, version, templateSetId, at, g);
        FailsExactlyOnRefusal(d, version, templateSetId, at + U16At(d, at + 2), Gather(d, version, templateSetId, at, g));
      }
    } else {
      TrailingBytesAreIgnored(d, version, templateSetId, at, g);
    }
  }

  lemma SetsAdvance(d: seq<byte>, version: nat, templateSetId: nat, at: nat, g: Gathered)
    requires at + 4 <= |d| && !Refused(d, version, templateSetId, at, g)
    ensures at < at + U16At(d, at + 2) <= |d|
  {
    hide U16At, ParseTemplates, ParseRecords;
  }

  /** Fewer than four bytes at the end are no set and no error. */
  lemma TrailingBytesAreIgnored(d: seq<byte>, version: nat, templateSetId: nat, at: nat, g: Gathered)
    requires at + 4 > |d|
    ensures ReadSets(d, version, templateSetId, at, g) == SetsRead(g, None)
  {
  }

  /**
   * A datagram is refused exactly when its header is, or when reading its sets one after the other comes to one that
   * is shorter than its header, runs past the end, has a reserved id, or does not parse.
   */
  lemma DecodeFailsExactlyWhen(d: seq<byte>, table: Table)
    ensures DecodeDatagram(d, table).result.Err? <==>
              || !((|d| >= 16 && U16At(d, 0) == 10 && U16At(d, 2) == |d|) || (|d| >= 20 && U16At(d, 0) == 9))
              || ComesToRefusal(d, U16At(d, 0), if U16At(d, 0) == 10 then 2 else 0, if U16At(d, 0) == 10 then 16 else 20,
                                Gathered(table, [], []))
  {
    HeadRefusals(d);
    if ReadHead(d).Ok? {
      HeadPlaces(d);
      var h := ReadHead(d).value;
      hide U16At, U32At, ReadHead, ReadSets, ComesToRefusal;
      FailsExactlyOnRefusal(d, h.version, h.templateSetId, h.length, Gathered(table, [], []));
    }
  }
}
