/** From netlink datagrams to what a collector holds: the theorems about whole runs. */
module EndToEnd {
  import opened Bytes
  import opened Event
  import opened Template
  import opened Record
  import opened Message
  import opened Collector
  import opened RoundTrip
  import opened MessageRoundTrip
  import opened Netlink
  import opened NetlinkPrint
  import opened Worker
  import opened WorkerLaws
  import opened WorkerSchedule
  import opened WorkerPolls
  import opened WorkerTiming

  // ---- What reaches the collector ----

  /** One life of the worker: the world it ran in and the poll results it saw. */
  datatype Life = Life(w: World, polls: seq<Poll>)

  function End(c: Config, life: Life): Worker {
    Run(c, life.w, Initial(life.w), life.polls)
  }

  function Log(c: Config, life: Life): seq<Sent> {
    End(c, life).sent
  }

  /** The i-th message of a life, as it arrives at the collector. */
  datatype Arrival = Arrival(life: Life, i: nat)

  predicate WasSent(c: Config, a: Arrival) {
    a.i < |Log(c, a.life)|
  }

  predicate AllSent(c: Config, feed: seq<Arrival>) {
    forall k :: 0 <= k < |feed| ==> WasSent(c, feed[k])
  }

  function MessageOf(c: Config, a: Arrival): Sent
    requires WasSent(c, a)
  {
    Log(c, a.life)[a.i]
  }

  function Datagrams(c: Config, feed: seq<Arrival>): (ds: seq<seq<byte>>)
    requires AllSent(c, feed)
    ensures |ds| == |feed|
    ensures forall k :: 0 <= k < |ds| ==> ds[k] == MessageOf(c, feed[k]).bytes
  {
    seq(|feed|, k requires 0 <= k < |feed| => MessageOf(c, feed[k]).bytes)
  }

  /** Feed the first `n` datagrams, in order, to a collector that starts with an empty template table. */
  function Collect(datagrams: seq<seq<byte>>, n: nat): Result<(Table, seq<Export>), DecodeError>
    requires n <= |datagrams|
  {
    if n == 0 then Ok((map[], []))
    else
      var (table, exports) :- Collect(datagrams, n - 1);
      var Decoded(next, result) := DecodeDatagram(datagrams[n - 1], table);
      var e :- result;
      Ok((next, exports + [e]))
  }

  /** What a message says to a collector that knows the template. */
  function Whole(c: Config, a: Arrival): Export
    requires WasSent(c, a)
  {
    var m := MessageOf(c, a);
    Export(c.template.protocol.Version(), SequenceAt(c, Log(c, a.life), a.i), c.domain, a.life.w.stamps(a.i).unixSecs,
           ExpectedCount(c.template, m.withTemplate, |m.events|),
           if m.withTemplate then [Describe(c.template)] else [],
           FlowsOf(c.template, m.events))
  }

  /** Some message among the first `n` brought the template. */
  predicate TemplateArrived(c: Config, feed: seq<Arrival>, n: nat)
    requires AllSent(c, feed) && n <= |feed|
  {
    n > 0 && (TemplateArrived(c, feed, n - 1) || MessageOf(c, feed[n - 1]).withTemplate)
  }

  /** The k-th message, with all its flows if the template had arrived by then and with none if not. */
  function Heard(c: Config, feed: seq<Arrival>, k: nat): Export
    requires AllSent(c, feed) && k < |feed|
  {
    if TemplateArrived(c, feed, k + 1) then Whole(c, feed[k]) else Whole(c, feed[k]).(records := [])
  }

  function Exports(c: Config, feed: seq<Arrival>, n: nat): (exports: seq<Export>)
    requires AllSent(c, feed) && n <= |feed|
    ensures |exports| == n
    ensures forall k :: 0 <= k < n ==> exports[k] == Heard(c, feed, k)
  {
    seq(n, k requires 0 <= k < n => Heard(c, feed, k))
  }

  function TableIf(c: Config, arrived: bool): Table {
    if arrived then map[c.template.templateId := Describe(c.template)] else map[]
  }

  lemma UnderstoodIsExportable(t: Template)
    requires Understood(t)
    ensures Exportable(t)
  {
  }

  lemma OneArrival(c: Config, a: Arrival, before: bool)
    requires Understood(c.template) && WasSent(c, a) && MessageOk(c, a.life.w, Log(c, a.life), a.i)
    ensures var after := before || MessageOf(c, a).withTemplate;
            DecodeDatagram(MessageOf(c, a).bytes, TableIf(c, before)) ==
            Decoded(TableIf(c, after), Ok(if after then Whole(c, a) else Whole(c, a).(records := [])))
  {
    hide EncodeMessage, DecodeDatagram, Describe, SequenceAt, FlowsOf, FieldIsUnderstood, Exportable, Template.RecordFits, Log;
    var m := MessageOf(c, a);
    MessageDecodes(c.template, m.withTemplate, a.life.w.stamps(a.i), SequenceAt(c, Log(c, a.life), a.i), c.domain, m.events,
                   TableIf(c, before));
    assert TableAfter(TableIf(c, before), c.template, m.withTemplate) == TableIf(c, before || m.withTemplate);
  }

  lemma ArrivalIsOk(c: Config, a: Arrival)
    requires Exportable(c.template) && WasSent(c, a)
    ensures MessageOk(c, a.life.w, Log(c, a.life), a.i)
  {
    hide Exportable, Run, MessageOk, SentEvents, Outstanding, DatagramsEvents, RunDatagrams, TotalSaturations;
    WorkerConserves(c, a.life.w, a.life.polls);
  }

  /**
   * UDP may lose, duplicate and reorder messages, a failed send is never retried, and the supervisor restarts
   * workers while the collector keeps its table. Whatever arrives, in whatever order and from however many lives
   * under one configuration, the collector never fails, and from the first template it receives it holds every
   * flow of every message it receives.
   */
  lemma {:induction false} AnyDeliveryDecodes(c: Config, feed: seq<Arrival>, n: nat)
    requires Understood(c.template) && AllSent(c, feed) && n <= |feed|
    ensures Collect(Datagrams(c, feed), n) == Ok((TableIf(c, TemplateArrived(c, feed, n)), Exports(c, feed, n)))
  {
    hide DecodeDatagram, Whole, MessageOk, Understood, Exportable, Describe, Log, TableIf;
    if n == 0 {
      EmptyTable(c);
    } else {
      AnyDeliveryDecodes(c, feed, n - 1);
      var a := feed[n - 1];
      UnderstoodIsExportable(c.template);
      ArrivalIsOk(c, a);
      OneArrival(c, a, TemplateArrived(c, feed, n - 1));
      assert Exports(c, feed, n) == Exports(c, feed, n - 1) + [Heard(c, feed, n - 1)];
    }
  }

  lemma EmptyTable(c: Config)
    ensures TableIf(c, false) == map[]
  {
  }

  // ---- Sequence numbers expose loss ----

  lemma {:induction false} SentEventsAreMonotone(sent: seq<Sent>, i: nat, j: nat)
    requires i <= j <= |sent|
    ensures |SentEvents(sent, i)| <= |SentEvents(sent, j)|
  {
    if i < j {
      SentEventsAreMonotone(sent, i, j - 1);
    }
  }

  /** Records, or under v9 packets, that a life sent after message `i` and before message `j`. */
  function SentBetween(c: Config, life: Life, i: nat, j: nat): int
    requires i < j <= |Log(c, life)|
  {
    if c.template.protocol.Ipfix? then |SentEvents(Log(c, life), j)| - |SentEvents(Log(c, life), i + 1)| else j - (i + 1)
  }

  /** What message `k` itself adds to the sequence number, as the collector sees it. */
  function OwnShare(c: Config, exports: seq<Export>, k: nat): nat
    requires k < |exports|
  {
    if c.template.protocol.Ipfix? then |exports[k].records| else 1
  }

  /**
   * From two messages of one life, the first received with the template known, the collector can tell what was
   * sent between them: the gap in their sequence numbers, less the first message's own share, is that number of
   * records, or under v9 packets, mod 2^32. For two messages received one after the other it is what was lost.
   */
  lemma SequenceGapCountsLoss(c: Config, feed: seq<Arrival>, k: nat, l: nat)
    requires Understood(c.template) && AllSent(c, feed) && k < |feed| && l < |feed|
    requires feed[k].life == feed[l].life && feed[k].i < feed[l].i
    requires TemplateArrived(c, feed, k + 1)
    ensures Collect(Datagrams(c, feed), |feed|).Ok?
    ensures var exports := Collect(Datagrams(c, feed), |feed|).value.1;
            && |exports| == |feed|
            && SentBetween(c, feed[k].life, feed[k].i, feed[l].i) >= 0
            && (exports[l].sequence - exports[k].sequence - OwnShare(c, exports, k)) % 0x1_0000_0000 ==
               SentBetween(c, feed[k].life, feed[k].i, feed[l].i) % 0x1_0000_0000
  {
    hide Collect, Understood, TemplateArrived, Log, Heard, SequenceAt, SentEvents;
    AnyDeliveryDecodes(c, feed, |feed|);
    HeardMeans(c, feed, k);
    HeardMeans(c, feed, l);
    var sent, i, j := Log(c, feed[k].life), feed[k].i, feed[l].i;
    SentEventsAreMonotone(sent, i + 1, j);
    SequenceGap(c, sent, i, j);
  }

  lemma HeardMeans(c: Config, feed: seq<Arrival>, k: nat)
    requires AllSent(c, feed) && k < |feed|
    ensures Heard(c, feed, k).sequence == SequenceAt(c, Log(c, feed[k].life), feed[k].i)
    ensures TemplateArrived(c, feed, k + 1) ==> Heard(c, feed, k).records == FlowsOf(c.template, MessageOf(c, feed[k]).events)
    ensures |FlowsOf(c.template, MessageOf(c, feed[k]).events)| == |MessageOf(c, feed[k]).events|
  {
    hide SequenceAt, Log, TemplateArrived, Describe, FlowOf;
  }

  lemma SequenceGap(c: Config, sent: seq<Sent>, i: nat, j: nat)
    requires i < j <= |sent|
    ensures var ipfix := c.template.protocol.Ipfix?;
            (SequenceAt(c, sent, j) - SequenceAt(c, sent, i) - (if ipfix then |sent[i].events| else 1)) % 0x1_0000_0000 ==
            (if ipfix then |SentEvents(sent, j)| - |SentEvents(sent, i + 1)| else j - (i + 1)) % 0x1_0000_0000
  {
    assert |SentEvents(sent, i + 1)| == |SentEvents(sent, i)| + |sent[i].events|;
    SentEventsAreMonotone(sent, i + 1, j);
    hide SentEvents;
    ModGap(|SentEvents(sent, i)|, |SentEvents(sent, j)|, |sent[i].events|);
    ModGap(i, j, 1);
  }

  lemma ModGap(a: nat, b: nat, own: nat)
    ensures (b % 0x1_0000_0000 - a % 0x1_0000_0000 - own) % 0x1_0000_0000 == (b - a - own) % 0x1_0000_0000
  {
    var m := 0x1_0000_0000;
    var gap := b % m - a % m - own;
    DivModUnique(b - a - own, m, b / m - a / m + gap / m, gap % m);
  }

  // ---- Every run ----

  /** All flow records of the first `n` decoded messages. */
  function Flows(exports: seq<Export>, n: nat): seq<FlowRecord>
    requires n <= |exports|
  {
    if n == 0 then [] else Flows(exports, n - 1) + exports[n - 1].records
  }

  /** Everything one life sends, in order, nothing lost. */
  function InOrder(c: Config, life: Life): (feed: seq<Arrival>)
    ensures |feed| == |Log(c, life)| && AllSent(c, feed)
  {
    seq(|Log(c, life)|, i requires 0 <= i < |Log(c, life)| => Arrival(life, i))
  }

  /** Everything the first `n` lives send, one life after the other. */
  function AllInOrder(c: Config, lives: seq<Life>, n: nat): (feed: seq<Arrival>)
    requires n <= |lives|
    ensures AllSent(c, feed)
  {
    if n == 0 then [] else AllInOrder(c, lives, n - 1) + InOrder(c, lives[n - 1])
  }

  /** The events of all messages of the first `n` lives, in order. */
  function ReportedEvents(c: Config, lives: seq<Life>, n: nat): seq<ConntrackEvent>
    requires n <= |lives|
  {
    if n == 0 then [] else ReportedEvents(c, lives, n - 1) + SentEvents(Log(c, lives[n - 1]), |Log(c, lives[n - 1])|)
  }

  ghost predicate ClocksAreMonotone(lives: seq<Life>) {
    forall i :: 0 <= i < |lives| ==> Monotone(lives[i].w)
  }

  lemma LifeStartsWithTemplate(c: Config, life: Life)
    requires Monotone(life.w)
    ensures Log(c, life) != [] ==> Log(c, life)[0].withTemplate
  {
    hide Run, Monotone, AtMostOnePlainWhileDue, TemplatesAreSpaced;
    TemplateSchedule(c, life.w, life.polls);
  }

  lemma {:induction false} TemplateComesFirst(c: Config, lives: seq<Life>, n: nat)
    requires n <= |lives| && ClocksAreMonotone(lives)
    ensures AllInOrder(c, lives, n) != [] ==> MessageOf(c, AllInOrder(c, lives, n)[0]).withTemplate
  {
    hide Log, Monotone;
    if n > 0 {
      TemplateComesFirst(c, lives, n - 1);
      LifeStartsWithTemplate(c, lives[n - 1]);
    }
  }

  lemma {:induction false} TemplateStays(c: Config, feed: seq<Arrival>, n: nat)
    requires AllSent(c, feed) && 0 < n <= |feed| && MessageOf(c, feed[0]).withTemplate
    ensures TemplateArrived(c, feed, n)
  {
    hide Log;
    if n > 1 {
      TemplateStays(c, feed, n - 1);
    }
  }

  /** The events of the first `n` messages received. */
  function FedEvents(c: Config, feed: seq<Arrival>, n: nat): seq<ConntrackEvent>
    requires AllSent(c, feed) && n <= |feed|
  {
    if n == 0 then [] else FedEvents(c, feed, n - 1) + MessageOf(c, feed[n - 1]).events
  }

  lemma FlowsOfAppend(t: Template, xs: seq<ConntrackEvent>, ys: seq<ConntrackEvent>)
    ensures FlowsOf(t, xs + ys) == FlowsOf(t, xs) + FlowsOf(t, ys)
  {
    hide FlowOf;
  }

  lemma NoFlows(t: Template)
    ensures FlowsOf(t, []) == []
  {
  }

  lemma FlowsStep(c: Config, feed: seq<Arrival>, n: nat, all: nat)
    requires AllSent(c, feed) && n <= all <= |feed|
    ensures n == 0 ==> Flows(Exports(c, feed, all), n) == [] && FedEvents(c, feed, n) == []
    ensures n > 0 ==>
              && WasSent(c, feed[n - 1])
              && Flows(Exports(c, feed, all), n) == Flows(Exports(c, feed, all), n - 1) + Heard(c, feed, n - 1).records
              && FedEvents(c, feed, n) == FedEvents(c, feed, n - 1) + MessageOf(c, feed[n - 1]).events
  {
    hide Heard, WasSent, MessageOf;
  }

  lemma {:induction false} ExportedFlows(c: Config, feed: seq<Arrival>, n: nat, all: nat)
    requires AllSent(c, feed) && n <= all <= |feed|
    requires feed != [] ==> MessageOf(c, feed[0]).withTemplate
    ensures Flows(Exports(c, feed, all), n) == FlowsOf(c.template, FedEvents(c, feed, n))
  {
    hide *;
    FlowsStep(c, feed, n, all);
    if n == 0 {
      NoFlows(c.template);
    } else {
      ExportedFlows(c, feed, n - 1, all);
      TemplateStays(c, feed, n);
      HeardMeans(c, feed, n - 1);
      FlowsOfAppend(c.template, FedEvents(c, feed, n - 1), MessageOf(c, feed[n - 1]).events);
    }
  }

  lemma {:induction false} FedEventsOfPrefix(c: Config, xs: seq<Arrival>, ys: seq<Arrival>, n: nat)
    requires AllSent(c, xs) && AllSent(c, ys) && n <= |xs|
    ensures AllSent(c, xs + ys)
    ensures FedEvents(c, xs + ys, n) == FedEvents(c, xs, n)
  {
    hide WasSent, MessageOf;
    if n > 0 {
      FedEventsOfPrefix(c, xs, ys, n - 1);
    }
  }

  /** The next life's messages, up to `n`, come after everything received before. */
  lemma {:induction false} FedEventsOfLife(c: Config, xs: seq<Arrival>, life: Life, n: nat)
    requires AllSent(c, xs) && n <= |Log(c, life)|
    ensures AllSent(c, xs + InOrder(c, life))
    ensures FedEvents(c, xs + InOrder(c, life), |xs| + n) == FedEvents(c, xs, |xs|) + SentEvents(Log(c, life), n)
  {
    hide Log;
    var ys := InOrder(c, life);
    FedEventsOfPrefix(c, xs, ys, |xs|);
    if n > 0 {
      FedEventsOfLife(c, xs, life, n - 1);
      var m := Log(c, life)[n - 1];
      assert MessageOf(c, (xs + ys)[|xs| + n - 1]) == m;
      assert FedEvents(c, xs, |xs|) + (SentEvents(Log(c, life), n - 1) + m.events) ==
             FedEvents(c, xs, |xs|) + SentEvents(Log(c, life), n - 1) + m.events;
    }
  }

  lemma {:induction false} FedIsReported(c: Config, lives: seq<Life>, n: nat)
    requires n <= |lives|
    ensures var feed := AllInOrder(c, lives, n); FedEvents(c, feed, |feed|) == ReportedEvents(c, lives, n)
  {
    hide Log, SentEvents, WasSent, MessageOf;
    if n > 0 {
      FedIsReported(c, lives, n - 1);
      FedEventsOfLife(c, AllInOrder(c, lives, n - 1), lives[n - 1], |Log(c, lives[n - 1])|);
    }
  }

  /** Each life reports exactly what it read, in order, less what it still held when it ended. */
  ghost predicate ReportsWhatItRead(c: Config, life: Life) {
    SentEvents(Log(c, life), |Log(c, life)|) + Outstanding(StatusOf(life.polls), End(c, life)) ==
    DatagramsEvents(c, RunDatagrams(life.polls))
  }

  /**
   * A worker that is restarted, any number of times. A collector that receives everything never fails and holds
   * exactly the flows of what the lives report, in order; and each life reports exactly what it read, in order,
   * less what it still held when it ended.
   */
  lemma RestartsAgree(c: Config, lives: seq<Life>)
    requires Understood(c.template) && ClocksAreMonotone(lives)
    ensures var feed := AllInOrder(c, lives, |lives|);
            var n := |feed|;
            && Collect(Datagrams(c, feed), n) == Ok((TableIf(c, n > 0), Exports(c, feed, n)))
            && Flows(Exports(c, feed, n), n) == FlowsOf(c.template, ReportedEvents(c, lives, |lives|))
    ensures forall i :: 0 <= i < |lives| ==> ReportsWhatItRead(c, lives[i])
  {
    hide Understood, FlowsOf, Collect, Flows, AllInOrder, ReportedEvents, FedEvents, Log, Exports, TableIf, ClocksAreMonotone,
         TemplateArrived, ReportsWhatItRead;
    var feed := AllInOrder(c, lives, |lives|);
    var n := |feed|;
    AnyDeliveryDecodes(c, feed, n);
    TemplateComesFirst(c, lives, |lives|);
    if n > 0 {
      TemplateStays(c, feed, n);
    } else {
      NothingArrived(c, feed);
    }
    ExportedFlows(c, feed, n, n);
    FedIsReported(c, lives, |lives|);
    forall i | 0 <= i < |lives|
      ensures ReportsWhatItRead(c, lives[i])
    {
      LifeReports(c, lives[i]);
    }
  }

  lemma NothingArrived(c: Config, feed: seq<Arrival>)
    requires AllSent(c, feed)
    ensures !TemplateArrived(c, feed, 0)
  {
  }

  lemma LifeReports(c: Config, life: Life)
    requires Understood(c.template)
    ensures ReportsWhatItRead(c, life)
  {
    UnderstoodIsExportable(c.template);
    hide Understood, Exportable, Run, SentEvents, Outstanding, DatagramsEvents, RunDatagrams, TotalSaturations, LogOk;
    WorkerConserves(c, life.w, life.polls);
  }

  /**
   * Whole-run agreement. For every run, under any poll results, datagrams, header times and send failures, a
   * collector fed the messages in order never fails and holds exactly the flows of the events read from
   * kernel datagrams, in order, less those still buffered.
   */
  lemma CollectorAgrees(c: Config, life: Life)
    requires Understood(c.template) && Monotone(life.w)
    ensures var feed := InOrder(c, life);
            var n := |feed|;
            var held := Outstanding(StatusOf(life.polls), End(c, life));
            && Collect(Datagrams(c, feed), n) == Ok((TableIf(c, n > 0), Exports(c, feed, n)))
            && Flows(Exports(c, feed, n), n) + FlowsOf(c.template, held) ==
               FlowsOf(c.template, DatagramsEvents(c, RunDatagrams(life.polls)))
  {
    OneLife(c, life);
    hide Understood, FlowsOf, Collect, Flows, AllInOrder, InOrder, ReportedEvents, Log, End, Exports, TableIf, Outstanding,
         DatagramsEvents, RunDatagrams, SentEvents;
    RestartsAgree(c, [life]);
    assert ReportsWhatItRead(c, [life][0]);
    FlowsOfAppend(c.template, SentEvents(Log(c, life), |Log(c, life)|), Outstanding(StatusOf(life.polls), End(c, life)));
  }

  lemma OneLife(c: Config, life: Life)
    ensures AllInOrder(c, [life], 1) == InOrder(c, life)
    ensures ReportedEvents(c, [life], 1) == SentEvents(Log(c, life), |Log(c, life)|)
  {
    hide Log, InOrder, SentEvents;
    assert AllInOrder(c, [life], 0) == [] && ReportedEvents(c, [life], 0) == [];
  }

  // ---- Clamp accounting ----

  function OversizedInAll(width: CounterWidth, events: seq<ConntrackEvent>): nat {
    if events == [] then 0
    else OversizedInAll(width, events[..|events| - 1]) + OversizedCounters(width, events[|events| - 1])
  }

  lemma {:induction false} SaturationsAreOversized(
      protocol: Protocol, profile: Profile, width: CounterWidth, id: u16, events: seq<ConntrackEvent>)
    ensures TotalSaturations(Unchecked(protocol, profile, width, id), events) == OversizedInAll(width, events)
  {
    hide Saturations, OversizedCounters, Unchecked;
    if events != [] {
      SaturationsAreOversized(protocol, profile, width, id, events[..|events| - 1]);
      SaturationsAreOversizedCounters(protocol, profile, width, id, events[|events| - 1]);
    }
  }

  // ---- From the kernel's entries to the collector's records ----

  /** A datagram that holds printed entries, from the kernel or from someone else. */
  datatype Delivery = Delivery(senderPortId: nat, entries: seq<Entry>)

  function AsDatagram(host: Endian, d: Delivery): Datagram {
    Datagram(d.senderPortId, PrintEntries(host, d.entries))
  }

  function AsDatagrams(host: Endian, ds: seq<Delivery>): (r: seq<Datagram>)
    ensures |r| == |ds|
  {
    seq(|ds|, i requires 0 <= i < |ds| => AsDatagram(host, ds[i]))
  }

  /** The NAT events of the kernel's entries, in order. */
  function DeliveredEvents(ds: seq<Delivery>): seq<ConntrackEvent> {
    if ds == [] then []
    else (if ds[0].senderPortId == 0 then NatEvents(ds[0].entries) else []) + DeliveredEvents(ds[1..])
  }

  lemma DeliveryRoundTrip(c: Config, d: Delivery)
    ensures DatagramEvents(c, AsDatagram(c.host, d)) == if d.senderPortId == 0 then NatEvents(d.entries) else []
  {
    hide ParseEvents, PrintEntries, NatEvents;
    PrintParse(c.host, d.entries);
    NothingPrintedNothingRead(c.host);
  }

  lemma NothingPrintedNothingRead(host: Endian)
    ensures ParseEvents(host, []) == []
  {
    hide MessageEvents;
  }

  lemma {:induction false} DeliveriesRoundTrip(c: Config, ds: seq<Delivery>)
    ensures DatagramsEvents(c, AsDatagrams(c.host, ds)) == DeliveredEvents(ds)
  {
    hide DatagramEvents, AsDatagram, NatEvents;
    if ds != [] {
      DeliveryRoundTrip(c, ds[0]);
      DeliveriesRoundTrip(c, ds[1..]);
      assert AsDatagrams(c.host, ds)[1..] == AsDatagrams(c.host, ds[1..]);
    }
  }

  // ---- Configuration ----

  datatype Args = Args(protocol: Protocol, profile: Profile, counterWidth: u8, templateId: u16, templateInterval: nat, domain: u32)

  /** What `run_worker` checks before it touches the system. */
  function Configure(a: Args, host: Endian): Result<Config, ConfigError> {
    if a.templateInterval == 0 then Err(BadTemplateInterval)
    else
      var width :- CounterWidthFromBytes(a.counterWidth);
      var t :- Resolve(a.protocol, a.profile, width, a.templateId);
      Ok(Config(t, a.domain, a.templateInterval, host))
  }

  /**
   * A configuration is accepted exactly when interval, width and template id are in range; the first of the three
   * that is not is reported. What is accepted is what was asked for, and the collector understands it.
   */
  lemma ConfigureAcceptsExactly(a: Args, host: Endian)
    ensures Configure(a, host).Ok? <==>
              a.templateInterval >= 1 && (a.counterWidth == 4 || a.counterWidth == 8) && a.templateId >= MIN_TEMPLATE_ID
    ensures Configure(a, host).Err? ==>
              Configure(a, host).error ==
              if a.templateInterval == 0 then BadTemplateInterval
              else if a.counterWidth != 4 && a.counterWidth != 8 then BadCounterWidth(a.counterWidth)
              else TemplateIdReserved(a.templateId)
    ensures Configure(a, host).Ok? ==>
              var c := Configure(a, host).value;
              && c == Config(Unchecked(a.protocol, a.profile, WidthOf(a), a.templateId), a.domain, a.templateInterval, host)
              && c.template.templateId == a.templateId && c.template.protocol == a.protocol
              && c.template.profile == a.profile && c.template.counterWidth.Bytes() == a.counterWidth
              && Understood(c.template)
  {
    ResolveSucceedsExactlyWhen(a.protocol, a.profile, WidthOf(a), a.templateId);
    if a.templateId < 256 {
      ReservedIsReported(a.protocol, a.profile, WidthOf(a), a.templateId);
    }
    hide Resolve, Unchecked, Understood, Exportable;
    if a.templateId >= MIN_TEMPLATE_ID {
      ResolvedIsUnderstood(a.protocol, a.profile, WidthOf(a), a.templateId);
    }
  }

  lemma ReservedIsReported(protocol: Protocol, profile: Profile, width: CounterWidth, id: u16)
    requires id < 256
    ensures Resolve(protocol, profile, width, id) == Err(TemplateIdReserved(id))
  {
  }

  function WidthOf(a: Args): CounterWidth {
    if a.counterWidth == 4 then Four else Eight
  }

  /**
   * End to end, for every configuration the program accepts. The kernel's entries arrive as printed datagrams, cut
   * into polls and receives in any way, until a poll brings a signal. The collector then knows exactly one template,
   * under the configured id, and holds exactly the flow records of the NAT entries, in order, in messages of the
   * configured protocol and domain; and the clamp counter is exactly the number of counters too wide for the
   * configured width.
   */
  lemma EntriesReachTheCollector(a: Args, host: Endian, life: Life, k: nat, ds: seq<Delivery>)
    requires Configure(a, host).Ok? && Monotone(life.w)
    requires k < |life.polls| && AllGoOn(life.polls, k) && IsSignalled(life.polls[k])
    requires ReadUpTo(life.polls, k) == AsDatagrams(host, ds)
    ensures var c := Configure(a, host).value;
            var feed := InOrder(c, life);
            var n := |feed|;
            && Collect(Datagrams(c, feed), n) == Ok((map[a.templateId := Describe(c.template)], Exports(c, feed, n)))
            && Flows(Exports(c, feed, n), n) == FlowsOf(c.template, DeliveredEvents(ds))
            && End(c, life).buffer.saturated == OversizedInAll(WidthOf(a), DeliveredEvents(ds))
    ensures var c := Configure(a, host).value;
            forall i :: 0 <= i < |InOrder(c, life)| ==>
              var e := Heard(c, InOrder(c, life), i);
              e.domainId == a.domain && e.version == if a.protocol.Ipfix? then 10 else 9
  {
    hide Configure, Understood, Exportable, Unchecked, Run, FlowsOf, Collect, Flows, SentEvents, DatagramsEvents, RunDatagrams,
         InOrder, Exports, TableIf, LogOk, TotalSaturations, OversizedInAll, AsDatagrams, DeliveredEvents, ReadUpTo, AllGoOn,
         StatusOf, Heard, Describe;
    var c := Configure(a, host).value;
    ConfigureAcceptsExactly(a, host);
    UnderstoodIsExportable(c.template);
    EndingByPolls(life.polls, k);
    RunReads(life.polls, k);
    EveryRunSends(c, life.w, life.polls);
    CollectorAgrees(c, life);
    TableWithTemplate(c);
    WorkerConserves(c, life.w, life.polls);
    DeliveriesRoundTrip(c, ds);
    SaturationsAreOversized(a.protocol, a.profile, WidthOf(a), a.templateId, DeliveredEvents(ds));
    NoFlows(c.template);
    var feed := InOrder(c, life);
    var exports := Exports(c, feed, |feed|);
    assert Flows(exports, |exports|) + [] == Flows(exports, |exports|);
    forall i | 0 <= i < |feed|
      ensures Heard(c, feed, i).domainId == a.domain && Heard(c, feed, i).version == if a.protocol.Ipfix? then 10 else 9
    {
      HeardIdentity(c, feed, i);
    }
  }

  lemma TableWithTemplate(c: Config)
    ensures TableIf(c, true) == map[c.template.templateId := Describe(c.template)]
  {
  }

  lemma HeardIdentity(c: Config, feed: seq<Arrival>, k: nat)
    requires AllSent(c, feed) && k < |feed|
    ensures Heard(c, feed, k).domainId == c.domain && Heard(c, feed, k).version == c.template.protocol.Version()
  {
    hide SequenceAt, Log, TemplateArrived, Describe, FlowsOf;
  }
}
