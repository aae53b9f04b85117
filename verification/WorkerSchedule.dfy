/** When the template goes out: section 8.4 of RFC 7011 as the worker schedules it. */
module WorkerSchedule {
  import opened Event
  import opened Worker

  ghost predicate Monotone(w: World) {
    forall i: nat, j: nat :: i <= j ==> w.clock(i) <= w.clock(j)
  }

  // ---- Promises about the log ----

  /** A template-less message sent while a retransmit was due is followed at once by the template. */
  ghost predicate AtMostOnePlainWhileDue(sent: seq<Sent>) {
    forall i, j :: 0 <= i && j == i + 1 && j < |sent| && sent[i].due && !sent[i].withTemplate ==> sent[j].withTemplate
  }

  ghost predicate TemplatesAreSpaced(sent: seq<Sent>, interval: nat) {
    forall i, j :: 0 <= i < j < |sent| && sent[i].withTemplate && sent[j].withTemplate ==>
      sent[j].at >= sent[i].at + interval
  }

  ghost predicate LogSchedule(c: Config, s: Worker) {
    && (s.sent != [] ==> s.sent[0].withTemplate)
    && AtMostOnePlainWhileDue(s.sent)
    && TemplatesAreSpaced(s.sent, c.interval)
    && (forall i :: 0 <= i < |s.sent| && s.sent[i].withTemplate ==> s.sent[i].at <= s.lastTemplateTime)
  }

  // ---- How flags and timer follow the log ----

  /** The last message went out without the template although one was due. */
  predicate AwaitingTemplate(s: Worker) {
    s.sent != [] && s.sent[|s.sent| - 1].due && !s.sent[|s.sent| - 1].withTemplate
  }

  ghost predicate Coupled(c: Config, w: World, s: Worker) {
    && (AwaitingTemplate(s) ==> s.includeTemplate)
    && (s.sent == [] ==> s.includeTemplate && !s.messageActive)
    && (s.sent != [] && s.includeTemplate ==> w.clock(s.clockReads) >= s.lastTemplateTime + c.interval)
  }

  /** The buffered message carries the template only when one is due, and must when it is overdue. */
  predicate Sendable(s: Worker) {
    && (s.buffer.withTemplate ==> s.includeTemplate)
    && (AwaitingTemplate(s) ==> s.buffer.withTemplate)
    && (s.sent == [] ==> s.buffer.withTemplate)
  }

  ghost predicate ScheduleOk(c: Config, w: World, s: Worker) {
    LogSchedule(c, s) && Coupled(c, w, s) && (s.messageActive ==> Sendable(s))
  }

  // ---- Each step keeps them ----

  lemma FlushSchedule(c: Config, w: World, s: Worker, reason: Reason)
    requires Monotone(w) && LogSchedule(c, s) && Sendable(s)
    requires AwaitingTemplate(s) ==> s.includeTemplate
    requires s.sent != [] && s.includeTemplate ==> w.clock(s.clockReads) >= s.lastTemplateTime + c.interval
    ensures var r := Flush(c, w, s, reason);
            && LogSchedule(c, r) && Coupled(c, w, r)
            && r.sent != [] && r.messageActive == s.messageActive
  {
    hide BytesToSend;
    if HasPendingOutput(s) {
      var r := Flush(c, w, s, reason);
      var n := |s.sent|;
      assert r.sent[..n] == s.sent;
      assert forall i :: 0 <= i < n ==> r.sent[i] == s.sent[i];
      assert w.clock(s.clockReads) <= w.clock(r.clockReads);
    }
  }

  /** The schedule never looks at the buffered records. */
  lemma AppendSchedule(c: Config, w: World, s: Worker, e: ConntrackEvent)
    requires ScheduleOk(c, w, s)
    ensures ScheduleOk(c, w, Append(c, s, e)) && Append(c, s, e).messageActive == s.messageActive
  {
  }

  lemma BeginSchedule(c: Config, w: World, s: Worker)
    requires LogSchedule(c, s) && Coupled(c, w, s)
    ensures ScheduleOk(c, w, Begin(s, s.includeTemplate))
  {
  }

  lemma AddEventSchedule(c: Config, w: World, s: Worker, e: ConntrackEvent)
    requires Monotone(w) && ScheduleOk(c, w, s) && s.messageActive
    ensures ScheduleOk(c, w, AddEvent(c, w, s, e)) && AddEvent(c, w, s, e).messageActive
  {
    hide Flush, Append, Fits, LogSchedule, Monotone;
    if Fits(c, s) {
      AppendSchedule(c, w, s, e);
    } else {
      FlushSchedule(c, w, s, MessageFull);
      var flushed := Flush(c, w, s, MessageFull);
      BeginSchedule(c, w, flushed);
      AppendSchedule(c, w, Begin(flushed, flushed.includeTemplate), e);
    }
  }

  lemma {:induction false} AddEventsSchedule(c: Config, w: World, s: Worker, events: seq<ConntrackEvent>)
    requires Monotone(w) && ScheduleOk(c, w, s) && s.messageActive
    ensures ScheduleOk(c, w, AddEvents(c, w, s, events))
    decreases |events|
  {
    hide AddEvent, ScheduleOk, Monotone;
    if events != [] {
      AddEventSchedule(c, w, s, events[0]);
      AddEventsSchedule(c, w, AddEvent(c, w, s, events[0]), events[1..]);
    }
  }

  lemma TakeDatagramSchedule(c: Config, w: World, s: Worker, d: Datagram)
    requires Monotone(w) && ScheduleOk(c, w, s) && s.sent != []
    ensures ScheduleOk(c, w, TakeDatagram(c, w, s, d))
  {
    hide AddEvents, LogSchedule, Monotone, Netlink.ParseEvents;
    if IsIngested(d) {
      NotedSchedule(c, s, Activate(s));
      AddEventsSchedule(c, w, Activate(s), Netlink.ParseEvents(c.host, d.bytes));
    }
  }

  lemma {:induction false} LogGrows(c: Config, w: World, s: Worker, events: seq<ConntrackEvent>)
    ensures |AddEvents(c, w, s, events).sent| >= |s.sent|
    decreases |events|
  {
    hide Fits, Append, BytesToSend;
    if events != [] {
      LogGrows(c, w, AddEvent(c, w, s, events[0]), events[1..]);
      assert |AddEvent(c, w, s, events[0]).sent| >= |s.sent| by { AddEventGrows(c, w, s, events[0]); }
    }
  }

  lemma AddEventGrows(c: Config, w: World, s: Worker, e: ConntrackEvent)
    ensures |AddEvent(c, w, s, e).sent| >= |s.sent|
  {
    hide BytesToSend, Fits;
  }

  lemma {:induction false} TakeDatagramsSchedule(c: Config, w: World, s: Worker, ds: seq<Datagram>)
    requires Monotone(w) && ScheduleOk(c, w, s) && s.sent != []
    ensures ScheduleOk(c, w, TakeDatagrams(c, w, s, ds)) && TakeDatagrams(c, w, s, ds).sent != []
    decreases |ds|
  {
    hide ScheduleOk, AddEvents, Monotone, Netlink.ParseEvents;
    if ds != [] {
      TakeDatagramSchedule(c, w, s, ds[0]);
      LogGrows(c, w, Activate(s), Netlink.ParseEvents(c.host, ds[0].bytes));
      TakeDatagramsSchedule(c, w, TakeDatagram(c, w, s, ds[0]), ds[1..]);
    }
  }

  lemma {:induction false} DrainSchedule(c: Config, w: World, s: Worker, batches: seq<Receive>, budget: nat)
    requires Monotone(w) && ScheduleOk(c, w, s) && s.sent != []
    ensures ScheduleOk(c, w, Drain(c, w, s, batches, budget))
    decreases budget
  {
    hide ScheduleOk, TakeDatagrams, Monotone;
    if budget == 0 || batches == [] || batches[0].NothingRead? || batches[0].datagrams == [] {
    } else {
      TakeDatagramsSchedule(c, w, s, batches[0].datagrams);
      if |batches[0].datagrams| >= RECV_BATCH_SIZE {
        DrainSchedule(c, w, TakeDatagrams(c, w, s, batches[0].datagrams), batches[1..], budget - 1);
      }
    }
  }

  /** Whenever `poll` is entered, a due template is already in the buffered message's future: one is active. */
  lemma BeforePollSchedule(c: Config, w: World, s: Worker)
    requires Monotone(w) && ScheduleOk(c, w, s)
    ensures var r := BeforePoll(c, w, s);
            && ScheduleOk(c, w, r) && r.sent != []
            && (r.includeTemplate ==> r.messageActive)
  {
    hide Flush, LogSchedule;
    assert w.clock(s.clockReads) <= w.clock(s.clockReads + 1);
    var noted := s.(clockReads := s.clockReads + 1,
                    includeTemplate := s.includeTemplate || w.clock(s.clockReads) >= s.lastTemplateTime + c.interval);
    NotedSchedule(c, s, noted);
    if noted.includeTemplate && !noted.messageActive {
      NotedSchedule(c, s, Begin(noted, true));
      hide Monotone;
      FlushSchedule(c, w, Begin(noted, true), TemplateDue);
      FlushOfTemplate(c, w, Begin(noted, true), TemplateDue);
    }
  }

  lemma NotedSchedule(c: Config, s: Worker, r: Worker)
    requires LogSchedule(c, s) && r.sent == s.sent && r.lastTemplateTime == s.lastTemplateTime
    ensures LogSchedule(c, r)
  {
  }

  lemma FlushOfTemplate(c: Config, w: World, s: Worker, reason: Reason)
    requires s.buffer.withTemplate
    ensures !Flush(c, w, s, reason).includeTemplate
  {
    hide BytesToSend;
  }

  lemma AfterPollSchedule(c: Config, w: World, s: Worker, p: Poll)
    requires Monotone(w) && ScheduleOk(c, w, s) && s.sent != []
    ensures ScheduleOk(c, w, AfterPoll(c, w, s, p))
  {
    hide Flush, LogSchedule, Drain, Monotone;
    if p.Polled? && p.signals == [] {
      if p.ready {
        DrainSchedule(c, w, s, p.batches, MAX_BATCHES_PER_POLL);
      } else if s.messageActive {
        FlushSchedule(c, w, s, FlushTimeout);
        var f := Flush(c, w, s, FlushTimeout);
        NotedSchedule(c, f, f.(messageActive := false));
      }
    }
  }

  lemma {:induction false} RunSchedule(c: Config, w: World, s: Worker, polls: seq<Poll>)
    requires Monotone(w) && ScheduleOk(c, w, s)
    ensures LogSchedule(c, Run(c, w, s, polls))
    decreases |polls|
  {
    hide LogSchedule, BeforePoll, AfterPoll, Flush, Monotone;
    if polls != [] {
      BeforePollSchedule(c, w, s);
      AfterPollSchedule(c, w, BeforePoll(c, w, s), polls[0]);
      var next := Turn(c, w, s, polls[0]);
      if StatusAfter(polls[0]).Running? {
        RunSchedule(c, w, next, polls[1..]);
      } else if StatusAfter(polls[0]).ShutDown? && next.messageActive {
        FlushSchedule(c, w, next, ShuttingDown);
      }
    }
  }

  /**
   * The template schedule of every run under a monotone clock: the first message carries the template, at most
   * one template-less message goes out between a retransmit falling due and the template, and template messages
   * are at least the interval apart.
   */
  lemma TemplateSchedule(c: Config, w: World, polls: seq<Poll>)
    requires Monotone(w)
    ensures var sent := Run(c, w, Initial(w), polls).sent;
            && (sent != [] ==> sent[0].withTemplate)
            && AtMostOnePlainWhileDue(sent)
            && TemplatesAreSpaced(sent, c.interval)
  {
    hide Run, Monotone;
    RunSchedule(c, w, Initial(w), polls);
  }
}
