/** What every run of the worker keeps: no event lost, duplicated or reordered, and every message as promised. */
module WorkerLaws {
  import opened Bytes
  import opened Event
  import opened Template
  import opened Record
  import opened Message
  import opened Netlink
  import opened Worker
  import Encoder

  // ---- The log of sent messages ----

  /** Section 3.1 of RFC 7011 counts earlier data records, section 5.1 of RFC 3954 earlier packets; both wrap. */
  function SequenceAt(c: Config, sent: seq<Sent>, i: nat): u32
    requires i <= |sent|
  {
    match c.template.protocol
    case Ipfix => |SentEvents(sent, i)| % 0x1_0000_0000
    case Netflow9 => i % 0x1_0000_0000
  }

  predicate BufferFits(t: Template, withTemplate: bool, events: seq<ConntrackEvent>) {
    events != [] ==> t.RecordFits(withTemplate, |events|)
  }

  /** Message `i` is exactly the encoding of its events, fits, is worth sending, and is full if it was sent as full. */
  ghost predicate MessageOk(c: Config, w: World, sent: seq<Sent>, i: nat)
    requires Exportable(c.template) && i < |sent|
  {
    var m := sent[i];
    && m.bytes == EncodeMessage(c.template, m.withTemplate, w.stamps(i), SequenceAt(c, sent, i), c.domain, m.events)
    && BufferFits(c.template, m.withTemplate, m.events)
    && (m.events != [] || m.withTemplate)
    && (m.reason.MessageFull? ==> |m.events| == AcceptLimit(c.template, m.withTemplate))
  }

  ghost predicate LogOk(c: Config, w: World, s: Worker)
    requires Exportable(c.template)
  {
    && (forall i :: 0 <= i < |s.sent| ==> MessageOk(c, w, s.sent, i))
    && s.buffer.sequence == SequenceAt(c, s.sent, |s.sent|)
    && (s.messageActive ==> BufferFits(c.template, s.buffer.withTemplate, s.buffer.events))
    && s.sendErrors == FailedSends(w, |s.sent|)
  }

  /** How many of the first `n` sends fail. */
  function FailedSends(w: World, n: nat): nat {
    if n == 0 then 0 else FailedSends(w, n - 1) + if w.sendFails(n - 1) then 1 else 0
  }

  function TotalSaturations(t: Template, events: seq<ConntrackEvent>): nat {
    if events == [] then 0
    else TotalSaturations(t, events[..|events| - 1]) + Saturations(t.fields, |t.fields|, events[|events| - 1])
  }

  /** Everything accounted for is `all`, and each of its oversized counters has been counted once. */
  ghost predicate Accounts(c: Config, s: Worker, all: seq<ConntrackEvent>) {
    Accounted(s) == all && s.buffer.saturated == TotalSaturations(c.template, all)
  }

  // ---- Appending to the log ----

  lemma {:induction false} SentEventsOfPrefix(sent: seq<Sent>, m: Sent, n: nat)
    requires n <= |sent|
    ensures SentEvents(sent + [m], n) == SentEvents(sent, n)
  {
    if n > 0 {
      SentEventsOfPrefix(sent, m, n - 1);
    }
  }

  lemma SentEventsGrow(sent: seq<Sent>, m: Sent)
    ensures SentEvents(sent + [m], |sent| + 1) == SentEvents(sent, |sent|) + m.events
  {
    SentEventsOfPrefix(sent, m, |sent|);
  }

  lemma SequenceOfPrefix(c: Config, sent: seq<Sent>, m: Sent, i: nat)
    requires i <= |sent|
    ensures SequenceAt(c, sent + [m], i) == SequenceAt(c, sent, i)
  {
    SentEventsOfPrefix(sent, m, i);
  }

  lemma SequenceAdvances(c: Config, sent: seq<Sent>, m: Sent)
    ensures Encoder.NextSequence(c.template.protocol, SequenceAt(c, sent, |sent|), |m.events|) ==
            SequenceAt(c, sent + [m], |sent| + 1)
  {
    SentEventsGrow(sent, m);
    hide SentEvents;
    WrappedSum(|SentEvents(sent, |sent|)|, |m.events|);
    WrappedSum(|sent|, 1);
  }

  lemma WrappedSum(a: nat, b: nat)
    ensures (a % 0x1_0000_0000 + b) % 0x1_0000_0000 == (a + b) % 0x1_0000_0000
  {
    var m := 0x1_0000_0000;
    var s := a % m + b;
    DivModUnique(a + b, m, a / m + s / m, s % m);
  }

  lemma MessageOkOfPrefix(c: Config, w: World, sent: seq<Sent>, m: Sent, i: nat)
    requires Exportable(c.template) && i < |sent| && MessageOk(c, w, sent, i)
    ensures MessageOk(c, w, sent + [m], i)
  {
    hide EncodeMessage, SequenceAt, AcceptLimit, Exportable, BufferFits;
    SequenceOfPrefix(c, sent, m, i);
  }

  /** The message `Flush` appends. */
  function Outgoing(c: Config, w: World, s: Worker, reason: Reason): Sent {
    Sent(BytesToSend(c, w, s), s.buffer.withTemplate, s.buffer.events, s.includeTemplate,
         if s.buffer.withTemplate then w.clock(s.clockReads) else 0, reason)
  }

  lemma FlushMeans(c: Config, w: World, s: Worker, reason: Reason)
    ensures !HasPendingOutput(s) ==> Flush(c, w, s, reason) == s && s.buffer.events == []
    ensures HasPendingOutput(s) ==>
              var f := Flush(c, w, s, reason);
              && f.sent == s.sent + [Outgoing(c, w, s, reason)]
              && f.sendErrors == s.sendErrors + (if w.sendFails(|s.sent|) then 1 else 0)
              && f.buffer == s.buffer.(sequence := Encoder.NextSequence(c.template.protocol, s.buffer.sequence, |s.buffer.events|))
    ensures Flush(c, w, s, reason).messageActive == s.messageActive
    ensures Flush(c, w, s, reason).buffer.events == s.buffer.events
    ensures Flush(c, w, s, reason).buffer.withTemplate == s.buffer.withTemplate
    ensures Flush(c, w, s, reason).buffer.saturated == s.buffer.saturated
  {
    hide BytesToSend, Encoder.NextSequence;
  }

  /** Flushing moves the buffered events to the log and keeps the log as promised. */
  lemma FlushKeepsLog(c: Config, w: World, s: Worker, reason: Reason)
    requires Exportable(c.template) && LogOk(c, w, s)
    requires BufferFits(c.template, s.buffer.withTemplate, s.buffer.events)
    requires reason.MessageFull? ==> |s.buffer.events| == AcceptLimit(c.template, s.buffer.withTemplate)
    ensures LogOk(c, w, Flush(c, w, s, reason))
    ensures var sent := Flush(c, w, s, reason).sent;
            SentEvents(sent, |sent|) == SentEvents(s.sent, |s.sent|) + s.buffer.events
  {
    FlushMeans(c, w, s, reason);
    hide Flush, Exportable, MessageOk, SequenceAt, Encoder.NextSequence, BufferFits, AcceptLimit, SentEvents, BytesToSend;
    if HasPendingOutput(s) {
      var m := Outgoing(c, w, s, reason);
      forall i | 0 <= i < |s.sent| + 1
        ensures MessageOk(c, w, s.sent + [m], i)
      {
        if i < |s.sent| {
          MessageOkOfPrefix(c, w, s.sent, m, i);
        } else {
          OutgoingIsOk(c, w, s, reason);
        }
      }
      SequenceAdvances(c, s.sent, m);
      SentEventsGrow(s.sent, m);
    }
  }

  lemma OutgoingIsOk(c: Config, w: World, s: Worker, reason: Reason)
    requires Exportable(c.template) && HasPendingOutput(s)
    requires s.buffer.sequence == SequenceAt(c, s.sent, |s.sent|)
    requires BufferFits(c.template, s.buffer.withTemplate, s.buffer.events)
    requires reason.MessageFull? ==> |s.buffer.events| == AcceptLimit(c.template, s.buffer.withTemplate)
    ensures MessageOk(c, w, s.sent + [Outgoing(c, w, s, reason)], |s.sent|)
  {
    hide EncodeMessage, SequenceAt, AcceptLimit, Exportable, BufferFits;
    SequenceOfPrefix(c, s.sent, Outgoing(c, w, s, reason), |s.sent|);
  }

  // ---- Ingest ----

  /** A fresh message, with or without the template, accepts any first record. */
  lemma FirstRecordFits(t: Template, withTemplate: bool)
    requires Exportable(t)
    ensures t.RecordFits(withTemplate, 1)
  {
    hide AlignUp, FieldIsSound;
  }

  lemma FullMeansLimit(t: Template, withTemplate: bool, n: nat)
    requires Exportable(t)
    requires n > 0 ==> t.RecordFits(withTemplate, n)
    requires !t.RecordFits(withTemplate, n + 1)
    ensures n > 0 && n == AcceptLimit(t, withTemplate)
  {
    FirstRecordFits(t, withTemplate);
    assert t.recordSize > 0;
    hide Template.RecordFits, AcceptLimit, Exportable;
    AcceptedUpToLimit(t, withTemplate, n);
    AcceptedUpToLimit(t, withTemplate, n + 1);
  }

  /** The error branch after a refused retry is unreachable. */
  lemma RetryAlwaysFits(c: Config, w: World, s: Worker)
    requires Exportable(c.template)
    ensures var flushed := Flush(c, w, s, MessageFull);
            Fits(c, Begin(flushed, flushed.includeTemplate))
  {
    hide Flush, Template.RecordFits, Exportable;
    FirstRecordFits(c.template, Flush(c, w, s, MessageFull).includeTemplate);
  }

  lemma TotalSaturationsGrow(t: Template, events: seq<ConntrackEvent>, e: ConntrackEvent)
    ensures TotalSaturations(t, events + [e]) == TotalSaturations(t, events) + Saturations(t.fields, |t.fields|, e)
  {
    hide Saturations;
    assert (events + [e])[..|events|] == events;
  }

  lemma AppendKeeps(c: Config, w: World, s: Worker, e: ConntrackEvent, all: seq<ConntrackEvent>)
    requires Exportable(c.template) && LogOk(c, w, s) && Accounts(c, s, all) && s.messageActive && Fits(c, s)
    ensures var r := Append(c, s, e);
            LogOk(c, w, r) && Accounts(c, r, all + [e]) && r.messageActive
  {
    TotalSaturationsGrow(c.template, all, e);
    hide Exportable, MessageOk, SequenceAt, SentEvents, TotalSaturations, Saturations, Template.RecordFits;
    assert SentEvents(s.sent, |s.sent|) + (s.buffer.events + [e]) == SentEvents(s.sent, |s.sent|) + s.buffer.events + [e];
  }

  /** Sending a full message and starting the next one moves events, and neither adds nor drops any. */
  lemma RolloverKeeps(c: Config, w: World, s: Worker, all: seq<ConntrackEvent>)
    requires Exportable(c.template) && LogOk(c, w, s) && Accounts(c, s, all) && s.messageActive && !Fits(c, s)
    ensures var flushed := Flush(c, w, s, MessageFull);
            var r := Begin(flushed, flushed.includeTemplate);
            LogOk(c, w, r) && Accounts(c, r, all) && r.messageActive
  {
    FullMeansLimit(c.template, s.buffer.withTemplate, |s.buffer.events|);
    FlushKeepsLog(c, w, s, MessageFull);
    FlushMeans(c, w, s, MessageFull);
    hide Flush, Exportable, MessageOk, SequenceAt, SentEvents, TotalSaturations, Template.RecordFits, AcceptLimit;
  }

  lemma AddEventKeeps(c: Config, w: World, s: Worker, e: ConntrackEvent, all: seq<ConntrackEvent>)
    requires Exportable(c.template) && LogOk(c, w, s) && Accounts(c, s, all) && s.messageActive
    ensures var r := AddEvent(c, w, s, e);
            LogOk(c, w, r) && Accounts(c, r, all + [e]) && r.messageActive
  {
    hide Flush, Begin, Append, Fits, Exportable, LogOk, Accounts;
    if Fits(c, s) {
      AppendKeeps(c, w, s, e, all);
    } else {
      RolloverKeeps(c, w, s, all);
      RetryAlwaysFits(c, w, s);
      var flushed := Flush(c, w, s, MessageFull);
      AppendKeeps(c, w, Begin(flushed, flushed.includeTemplate), e, all);
    }
  }

  lemma {:induction false} AddEventsKeep(c: Config, w: World, s: Worker, events: seq<ConntrackEvent>, all: seq<ConntrackEvent>)
    requires Exportable(c.template) && LogOk(c, w, s) && Accounts(c, s, all) && s.messageActive
    ensures var r := AddEvents(c, w, s, events);
            LogOk(c, w, r) && Accounts(c, r, all + events) && r.messageActive
    decreases |events|
  {
    hide AddEvent, Exportable, LogOk, Accounts;
    if events == [] {
      assert all + events == all;
    } else {
      AddEventKeeps(c, w, s, events[0], all);
      AddEventsKeep(c, w, AddEvent(c, w, s, events[0]), events[1..], all + [events[0]]);
      assert all + [events[0]] + events[1..] == all + events;
    }
  }

  lemma ActivateKeeps(c: Config, w: World, s: Worker, all: seq<ConntrackEvent>)
    requires Exportable(c.template) && LogOk(c, w, s) && Accounts(c, s, all)
    ensures LogOk(c, w, Activate(s)) && Accounts(c, Activate(s), all) && Activate(s).messageActive
  {
    hide Exportable, MessageOk, SequenceAt, SentEvents, TotalSaturations;
  }

  lemma TakeDatagramKeeps(c: Config, w: World, s: Worker, d: Datagram, all: seq<ConntrackEvent>)
    requires Exportable(c.template) && LogOk(c, w, s) && Accounts(c, s, all)
    ensures var r := TakeDatagram(c, w, s, d);
            LogOk(c, w, r) && Accounts(c, r, all + DatagramEvents(c, d))
  {
    hide Exportable, LogOk, Accounts, AddEvents, Activate, ParseEvents;
    if IsIngested(d) {
      ActivateKeeps(c, w, s, all);
      AddEventsKeep(c, w, Activate(s), ParseEvents(c.host, d.bytes), all);
    } else {
      assert all + [] == all;
    }
  }

  lemma {:induction false} TakeDatagramsKeep(c: Config, w: World, s: Worker, ds: seq<Datagram>, all: seq<ConntrackEvent>)
    requires Exportable(c.template) && LogOk(c, w, s) && Accounts(c, s, all)
    ensures var r := TakeDatagrams(c, w, s, ds);
            LogOk(c, w, r) && Accounts(c, r, all + DatagramsEvents(c, ds))
    decreases |ds|
  {
    hide Exportable, LogOk, Accounts, TakeDatagram, DatagramEvents;
    if ds == [] {
      assert all + [] == all;
    } else {
      var first, rest := DatagramEvents(c, ds[0]), DatagramsEvents(c, ds[1..]);
      TakeDatagramKeeps(c, w, s, ds[0], all);
      TakeDatagramsKeep(c, w, TakeDatagram(c, w, s, ds[0]), ds[1..], all + first);
      assert all + first + rest == all + (first + rest);
    }
  }

  lemma {:induction false} DatagramsEventsAppend(c: Config, xs: seq<Datagram>, ys: seq<Datagram>)
    ensures DatagramsEvents(c, xs + ys) == DatagramsEvents(c, xs) + DatagramsEvents(c, ys)
  {
    hide DatagramEvents;
    if xs == [] {
      assert xs + ys == ys;
    } else {
      assert (xs + ys)[1..] == xs[1..] + ys;
      DatagramsEventsAppend(c, xs[1..], ys);
    }
  }

  lemma {:induction false} DrainKeeps(c: Config, w: World, s: Worker, batches: seq<Receive>, budget: nat, all: seq<ConntrackEvent>)
    requires Exportable(c.template) && LogOk(c, w, s) && Accounts(c, s, all)
    ensures var r := Drain(c, w, s, batches, budget);
            LogOk(c, w, r) && Accounts(c, r, all + DatagramsEvents(c, Drained(batches, budget)))
    decreases budget
  {
    hide Exportable, LogOk, Accounts, TakeDatagrams, DatagramsEvents;
    if budget == 0 || batches == [] || batches[0].NothingRead? || batches[0].datagrams == [] {
      NoDatagramsNoEvents(c);
      assert all + [] == all;
    } else {
      var ds := batches[0].datagrams;
      TakeDatagramsKeep(c, w, s, ds, all);
      if |ds| >= RECV_BATCH_SIZE {
        var first, rest := DatagramsEvents(c, ds), Drained(batches[1..], budget - 1);
        DrainKeeps(c, w, TakeDatagrams(c, w, s, ds), batches[1..], budget - 1, all + first);
        DatagramsEventsAppend(c, ds, rest);
        assert all + first + DatagramsEvents(c, rest) == all + (first + DatagramsEvents(c, rest));
      }
    }
  }

  lemma NoDatagramsNoEvents(c: Config)
    ensures DatagramsEvents(c, []) == []
  {
  }

  // ---- The loop ----

  lemma BeforePollKeeps(c: Config, w: World, s: Worker, all: seq<ConntrackEvent>)
    requires Exportable(c.template) && LogOk(c, w, s) && Accounts(c, s, all)
    ensures var r := BeforePoll(c, w, s);
            && LogOk(c, w, r) && Accounts(c, r, all)
            && (r.includeTemplate ==> r.messageActive)
  {
    hide Exportable, MessageOk, SequenceAt, SentEvents, TotalSaturations, EncodeMessage;
    var noted := s.(clockReads := s.clockReads + 1,
                    includeTemplate := s.includeTemplate || w.clock(s.clockReads) >= s.lastTemplateTime + c.interval);
    if noted.includeTemplate && !noted.messageActive {
      FlushKeepsLog(c, w, Begin(noted, true), TemplateDue);
      FlushMeans(c, w, Begin(noted, true), TemplateDue);
    }
  }

  lemma AfterPollKeeps(c: Config, w: World, s: Worker, p: Poll, all: seq<ConntrackEvent>)
    requires Exportable(c.template) && LogOk(c, w, s) && Accounts(c, s, all)
    ensures var r := AfterPoll(c, w, s, p);
            LogOk(c, w, r) && Accounts(c, r, all + DatagramsEvents(c, PollDatagrams(p)))
  {
    NoDatagramsNoEvents(c);
    assert all + [] == all;
    if p.Polled? && p.signals == [] && p.ready {
      DrainKeeps(c, w, s, p.batches, MAX_BATCHES_PER_POLL, all);
    } else if p.Polled? && p.signals == [] && s.messageActive {
      TimeoutKeeps(c, w, s, all);
    }
    hide Exportable, LogOk, Accounts, Drain, Drained, DatagramsEvents, Flush;
  }

  lemma TimeoutKeeps(c: Config, w: World, s: Worker, all: seq<ConntrackEvent>)
    requires Exportable(c.template) && LogOk(c, w, s) && Accounts(c, s, all) && s.messageActive
    ensures var r := Flush(c, w, s, FlushTimeout).(messageActive := false);
            LogOk(c, w, r) && Accounts(c, r, all)
  {
    FlushKeepsLog(c, w, s, FlushTimeout);
    FlushMeans(c, w, s, FlushTimeout);
    hide Exportable, MessageOk, SequenceAt, SentEvents, TotalSaturations, Flush;
  }

  /** A poll that times out sends everything buffered and leaves no message open. */
  lemma QuietPollEmptiesTheBuffer(c: Config, w: World, s: Worker, p: Poll)
    requires p.Polled? && p.signals == [] && !p.ready
    ensures var r := AfterPoll(c, w, s, p);
            && !r.messageActive && Buffered(r) == []
            && SentEvents(r.sent, |r.sent|) == SentEvents(s.sent, |s.sent|) + Buffered(s)
  {
    FlushMeans(c, w, s, FlushTimeout);
    hide Flush, SentEvents, BytesToSend;
    if s.messageActive && HasPendingOutput(s) {
      SentEventsGrow(s.sent, Outgoing(c, w, s, FlushTimeout));
    }
  }

  /**
   * At the top of the loop, and only there, the deadline is compared with the clock. A retransmit found due goes
   * out alone, or waits for the message under construction; a deadline that passes during a drain is found at
   * the next turn.
   */
  lemma RetransmitIsNoticed(c: Config, w: World, s: Worker)
    ensures var r := BeforePoll(c, w, s);
            var due := s.includeTemplate || w.clock(s.clockReads) >= s.lastTemplateTime + c.interval;
            && (due && s.messageActive ==> r.includeTemplate && r.sent == s.sent)
            && (due && !s.messageActive ==>
                  && |r.sent| == |s.sent| + 1 && r.sent[..|s.sent|] == s.sent
                  && r.sent[|s.sent|].withTemplate && r.sent[|s.sent|].events == []
                  && !r.includeTemplate && r.lastTemplateTime == w.clock(s.clockReads + 1))
            && (!due ==> r == s.(clockReads := s.clockReads + 1))
  {
    hide EncodeMessage, Encoder.NextSequence;
  }

  /** Records accepted but not sent when the run ends this way: a signal shutdown leaves none. */
  function Outstanding(status: Status, s: Worker): seq<ConntrackEvent> {
    if status.ShutDown? then [] else Buffered(s)
  }

  lemma FinishKeeps(c: Config, w: World, s: Worker, status: Status, all: seq<ConntrackEvent>)
    requires Exportable(c.template) && LogOk(c, w, s) && Accounts(c, s, all)
    ensures var r := Finish(c, w, s, status);
            && LogOk(c, w, r)
            && SentEvents(r.sent, |r.sent|) + Outstanding(status, r) == all
            && r.buffer.saturated == TotalSaturations(c.template, all)
  {
    if status.ShutDown? && s.messageActive {
      FlushKeepsLog(c, w, s, ShuttingDown);
      FlushMeans(c, w, s, ShuttingDown);
    }
    hide Exportable, MessageOk, SequenceAt, SentEvents, TotalSaturations, Flush;
  }

  /**
   * Conservation over every run, from every state that satisfies the invariant: the records of all messages sent,
   * followed by those still buffered, are exactly what was read, in order; nothing is lost, duplicated or
   * reordered, each oversized counter is counted once, and every message in the log is as promised.
   */
  lemma {:induction false} RunAccounts(c: Config, w: World, s: Worker, polls: seq<Poll>, all: seq<ConntrackEvent>)
    requires Exportable(c.template) && LogOk(c, w, s) && Accounts(c, s, all)
    ensures var r := Run(c, w, s, polls);
            var read := all + DatagramsEvents(c, RunDatagrams(polls));
            && LogOk(c, w, r)
            && SentEvents(r.sent, |r.sent|) + Outstanding(StatusOf(polls), r) == read
            && r.buffer.saturated == TotalSaturations(c.template, read)
    decreases |polls|
  {
    hide Exportable, LogOk, BeforePoll, AfterPoll, Finish, DatagramsEvents, TotalSaturations, SentEvents, PollDatagrams;
    if polls == [] {
      NoDatagramsNoEvents(c);
      assert all + [] == all;
    } else {
      var p := polls[0];
      var first := DatagramsEvents(c, PollDatagrams(p));
      BeforePollKeeps(c, w, s, all);
      AfterPollKeeps(c, w, BeforePoll(c, w, s), p, all);
      var next := Turn(c, w, s, p);
      if StatusAfter(p).Running? {
        RunAccounts(c, w, next, polls[1..], all + first);
        DatagramsEventsAppend(c, PollDatagrams(p), RunDatagrams(polls[1..]));
        assert all + first + DatagramsEvents(c, RunDatagrams(polls[1..])) ==
               all + (first + DatagramsEvents(c, RunDatagrams(polls[1..])));
      } else {
        FinishKeeps(c, w, next, StatusAfter(p), all + first);
        assert PollDatagrams(p) + [] == PollDatagrams(p);
      }
    }
  }

  lemma InitialIsOk(c: Config, w: World)
    requires Exportable(c.template)
    ensures LogOk(c, w, Initial(w)) && Accounts(c, Initial(w), [])
  {
    hide Exportable;
  }

  lemma WorkerConserves(c: Config, w: World, polls: seq<Poll>)
    requires Exportable(c.template)
    ensures var r := Run(c, w, Initial(w), polls);
            var read := DatagramsEvents(c, RunDatagrams(polls));
            && LogOk(c, w, r)
            && SentEvents(r.sent, |r.sent|) + Outstanding(StatusOf(polls), r) == read
            && r.buffer.saturated == TotalSaturations(c.template, read)
  {
    hide Exportable, LogOk, Run, DatagramsEvents, TotalSaturations, SentEvents, RunDatagrams, Accounts;
    InitialIsOk(c, w);
    RunAccounts(c, w, Initial(w), polls, []);
    assert [] + DatagramsEvents(c, RunDatagrams(polls)) == DatagramsEvents(c, RunDatagrams(polls));
  }
}
