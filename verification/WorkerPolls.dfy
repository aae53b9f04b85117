/**
 * The worker's loop said by what `poll` returned: which results end a run and how, which send anything, and what.
 * None of it relies on the labels the machine puts into its own log.
 */
module WorkerPolls {
  import opened Event
  import opened Template
  import opened Worker
  import opened WorkerLaws

  // ---- How a run ends ----

  /** `poll` was interrupted, or returned without a signal to read. */
  predicate GoesOn(p: Poll) {
    p.PollInterrupted? || (p.Polled? && p.signals == [])
  }

  /** A signal was read. */
  predicate IsSignalled(p: Poll) {
    p.Polled? && p.signals != []
  }

  predicate IsBroken(p: Poll) {
    p.PollFailed? || p.SignalReadFailed?
  }

  predicate AllGoOn(polls: seq<Poll>, k: nat)
    requires k <= |polls|
  {
    forall j :: 0 <= j < k ==> GoesOn(polls[j])
  }

  /** A signal ends the run, and nothing before it does. */
  ghost predicate SignalEnds(polls: seq<Poll>) {
    exists k :: 0 <= k < |polls| && AllGoOn(polls, k) && IsSignalled(polls[k])
  }

  /** The first poll result that is a signal or a failure decides; without one the run has not ended. */
  lemma {:induction false} EndingByPolls(polls: seq<Poll>, k: nat)
    requires k <= |polls| && AllGoOn(polls, k)
    ensures k == |polls| ==> StatusOf(polls) == Running
    ensures k < |polls| && IsSignalled(polls[k]) ==> StatusOf(polls) == ShutDown
    ensures k < |polls| && IsBroken(polls[k]) ==> StatusOf(polls) == Failed
  {
    if k > 0 {
      assert GoesOn(polls[0]);
      EndingByPolls(polls[1..], k - 1);
    }
  }

  /** A run is shut down exactly when a signal ends it. */
  lemma {:induction false} ShutDownExactlyWhen(polls: seq<Poll>)
    ensures StatusOf(polls).ShutDown? <==> SignalEnds(polls)
  {
    var k := FirstEnd(polls);
    EndingByPolls(polls, k);
    if SignalEnds(polls) {
      var j :| 0 <= j < |polls| && AllGoOn(polls, j) && IsSignalled(polls[j]);
      EndingByPolls(polls, j);
    }
  }

  lemma {:induction false} FirstEnd(polls: seq<Poll>) returns (k: nat)
    ensures k <= |polls| && AllGoOn(polls, k)
    ensures k < |polls| ==> IsSignalled(polls[k]) || IsBroken(polls[k])
  {
    if polls == [] || !GoesOn(polls[0]) {
      k := 0;
    } else {
      var rest := FirstEnd(polls[1..]);
      k := rest + 1;
      forall j | 0 <= j < k
        ensures GoesOn(polls[j])
      {
        assert j > 0 ==> polls[j] == polls[1..][j - 1];
      }
    }
  }

  /** The state in which turn `k` of the loop begins. */
  function At(c: Config, w: World, s: Worker, polls: seq<Poll>, k: nat): Worker
    requires k <= |polls|
  {
    if k == 0 then s else Turn(c, w, At(c, w, s, polls, k - 1), polls[k - 1])
  }

  lemma {:induction false} AtShifts(c: Config, w: World, s: Worker, polls: seq<Poll>, k: nat)
    requires 0 < k <= |polls|
    ensures At(c, w, s, polls, k) == At(c, w, Turn(c, w, s, polls[0]), polls[1..], k - 1)
  {
    hide Turn;
    if k > 1 {
      AtShifts(c, w, s, polls, k - 1);
    } else {
      assert At(c, w, s, polls, 0) == s;
    }
  }

  /** A run that has not ended is where its last turn left it; one that has is finished from its last top of loop. */
  lemma {:induction false} RunEnds(c: Config, w: World, s: Worker, polls: seq<Poll>, k: nat)
    requires k <= |polls| && AllGoOn(polls, k)
    ensures k == |polls| ==> Run(c, w, s, polls) == At(c, w, s, polls, k)
    ensures k < |polls| && IsBroken(polls[k]) ==>
              Run(c, w, s, polls) == BeforePoll(c, w, At(c, w, s, polls, k))
    ensures k < |polls| && IsSignalled(polls[k]) ==>
              Run(c, w, s, polls) == Finish(c, w, BeforePoll(c, w, At(c, w, s, polls, k)), ShutDown)
    decreases |polls|
  {
    hide BeforePoll, Drain, Flush, Finish;
    if k > 0 {
      assert GoesOn(polls[0]);
      AtShifts(c, w, s, polls, k);
      RunEnds(c, w, Turn(c, w, s, polls[0]), polls[1..], k - 1);
    } else if k < |polls| && IsBroken(polls[0]) {
      UnfinishedStays(c, w, BeforePoll(c, w, s));
    }
  }

  lemma UnfinishedStays(c: Config, w: World, s: Worker)
    ensures Finish(c, w, s, Failed) == s
  {
  }

  /** `r` is `s` after one more message that holds exactly what was buffered; or as before if nothing was worth sending. */
  predicate SendsTheBuffer(s: Worker, r: Worker) {
    if s.buffer.events == [] && !s.buffer.withTemplate then r.sent == s.sent
    else
      && |r.sent| == |s.sent| + 1 && r.sent[..|s.sent|] == s.sent
      && r.sent[|s.sent|].events == s.buffer.events
      && r.sent[|s.sent|].withTemplate == s.buffer.withTemplate
  }

  lemma FlushSendsTheBuffer(c: Config, w: World, s: Worker, reason: Reason)
    ensures SendsTheBuffer(s, Flush(c, w, s, reason))
  {
    hide BytesToSend;
  }

  /**
   * What follows the last top of loop. A failure sends nothing. A signal sends the active message, whole and alone,
   * and nothing if none is active.
   */
  lemma EndingSends(c: Config, w: World, s: Worker, polls: seq<Poll>, k: nat)
    requires k < |polls| && AllGoOn(polls, k) && !GoesOn(polls[k])
    ensures var top := BeforePoll(c, w, At(c, w, s, polls, k));
            var r := Run(c, w, s, polls);
            && (IsBroken(polls[k]) ==> r.sent == top.sent)
            && (IsSignalled(polls[k]) && !top.messageActive ==> r.sent == top.sent)
            && (IsSignalled(polls[k]) && top.messageActive ==> SendsTheBuffer(top, r))
  {
    RunEnds(c, w, s, polls, k);
    hide Run, At, BeforePoll, Flush, SendsTheBuffer;
    FlushSendsTheBuffer(c, w, BeforePoll(c, w, At(c, w, s, polls, k)), ShuttingDown);
  }

  // ---- What each poll result does while the run goes on ----

  /** A poll that was interrupted, failed or brought a signal changes nothing, whatever else it reported. */
  lemma OtherPollsChangeNothing(c: Config, w: World, s: Worker, p: Poll)
    requires !p.Polled? || p.signals != []
    ensures AfterPoll(c, w, s, p) == s
  {
  }

  /** A poll with nothing to read sends the active message, whole and alone, and closes it. */
  lemma QuietPollSends(c: Config, w: World, s: Worker, p: Poll)
    requires p.Polled? && p.signals == [] && !p.ready
    ensures var r := AfterPoll(c, w, s, p);
            && !r.messageActive
            && (s.messageActive ==> SendsTheBuffer(s, r))
            && (!s.messageActive ==> r == s)
  {
    hide Flush, SendsTheBuffer;
    FlushSendsTheBuffer(c, w, s, FlushTimeout);
    var f := Flush(c, w, s, FlushTimeout);
    SentIsAllThatCounts(s, f, f.(messageActive := false));
  }

  lemma SentIsAllThatCounts(s: Worker, r: Worker, r': Worker)
    requires r.sent == r'.sent
    ensures SendsTheBuffer(s, r) == SendsTheBuffer(s, r')
  {
  }

  // ---- What is read ----

  /** A receive that filled all sixteen slots of the batch. */
  predicate IsFull(b: Receive) {
    b.Received? && |b.datagrams| >= 16
  }

  /** The datagrams of the first `n` receives. */
  function Joined(batches: seq<Receive>, n: nat): seq<Datagram>
    requires n <= |batches|
  {
    if n == 0 then [] else Joined(batches, n - 1) + if batches[n - 1].Received? then batches[n - 1].datagrams else []
  }

  lemma {:induction false} JoinedShifts(batches: seq<Receive>, n: nat)
    requires 0 < n <= |batches| && batches[0].Received?
    ensures Joined(batches, n) == batches[0].datagrams + Joined(batches[1..], n - 1)
  {
    if n == 1 {
      assert Joined(batches, 0) == [] && Joined(batches[1..], 0) == [];
    } else {
      JoinedShifts(batches, n - 1);
      assert batches[1..][n - 2] == batches[n - 1];
    }
  }

  lemma {:induction false} DrainedIsJoined(batches: seq<Receive>, budget: nat, k: nat)
    requires k <= |batches| && k <= budget && forall j :: 0 <= j < k ==> IsFull(batches[j])
    ensures k == budget || k == |batches| || batches[k].NothingRead? || batches[k].datagrams == [] ==>
              Drained(batches, budget) == Joined(batches, k)
    ensures k < budget && k < |batches| && batches[k].Received? && 0 < |batches[k].datagrams| < 16 ==>
              Drained(batches, budget) == Joined(batches, k + 1)
  {
    if k > 0 {
      assert IsFull(batches[0]);
      forall j | 0 <= j < k - 1
        ensures IsFull(batches[1..][j])
      {
        assert batches[1..][j] == batches[j + 1];
      }
      DrainedIsJoined(batches[1..], budget - 1, k - 1);
      JoinedShifts(batches, k);
      if k < |batches| {
        assert batches[1..][k - 1] == batches[k];
        JoinedShifts(batches, k + 1);
      }
    } else if budget > 0 && |batches| > 0 && batches[0].Received? {
      assert Joined(batches, 0) == [] && Joined(batches, 1) == batches[0].datagrams;
    }
  }

  /**
   * A poll with data to read takes in every datagram of its receives, in order, up to and including the first that
   * does not fill its sixteen slots, and of sixty-four receives at most. A poll without takes in nothing.
   */
  lemma PollReads(p: Poll, k: nat)
    requires p.Polled? && k <= |p.batches| && k <= 64 && forall j :: 0 <= j < k ==> IsFull(p.batches[j])
    ensures p.signals != [] || !p.ready ==> PollDatagrams(p) == []
    ensures p.signals == [] && p.ready && (k == 64 || k == |p.batches| || p.batches[k].NothingRead? || p.batches[k].datagrams == []) ==>
              PollDatagrams(p) == Joined(p.batches, k)
    ensures p.signals == [] && p.ready && k < 64 && k < |p.batches|
            && p.batches[k].Received? && 0 < |p.batches[k].datagrams| < 16 ==>
              PollDatagrams(p) == Joined(p.batches, k + 1)
  {
    hide Drained, Joined, IsFull;
    DrainedIsJoined(p.batches, MAX_BATCHES_PER_POLL, k);
  }

  /** What the first `k` polls take in. */
  function ReadUpTo(polls: seq<Poll>, k: nat): seq<Datagram>
    requires k <= |polls|
  {
    if k == 0 then [] else ReadUpTo(polls, k - 1) + PollDatagrams(polls[k - 1])
  }

  lemma {:induction false} ReadShifts(polls: seq<Poll>, k: nat)
    requires 0 < k <= |polls|
    ensures ReadUpTo(polls, k) == PollDatagrams(polls[0]) + ReadUpTo(polls[1..], k - 1)
  {
    hide PollDatagrams;
    if k == 1 {
      assert ReadUpTo(polls, 0) == [] && ReadUpTo(polls[1..], 0) == [];
    } else {
      ReadShifts(polls, k - 1);
      assert polls[1..][k - 2] == polls[k - 1];
    }
  }

  /** A run reads what its polls take in up to the one that ends it, which takes in nothing. */
  lemma {:induction false} RunReads(polls: seq<Poll>, k: nat)
    requires k <= |polls| && AllGoOn(polls, k) && (k < |polls| ==> !GoesOn(polls[k]))
    ensures RunDatagrams(polls) == ReadUpTo(polls, k)
  {
    hide Drained;
    if k > 0 {
      assert GoesOn(polls[0]);
      RunReads(polls[1..], k - 1);
      ReadShifts(polls, k);
    }
  }

  // ---- Ingest: a record is sent only with a full message ----

  /** With room left a record is buffered and nothing is sent. */
  lemma RoomMeansNoSend(c: Config, w: World, s: Worker, e: ConntrackEvent)
    requires c.template.recordSize > 0
    requires |s.buffer.events| < AcceptLimit(c.template, s.buffer.withTemplate)
    ensures var r := AddEvent(c, w, s, e);
            && r.sent == s.sent && r.sendErrors == s.sendErrors && r.clockReads == s.clockReads
            && r.includeTemplate == s.includeTemplate && r.messageActive == s.messageActive
            && r.buffer.events == s.buffer.events + [e] && r.buffer.withTemplate == s.buffer.withTemplate
  {
    hide Template.RecordFits, AcceptLimit, Flush;
    AcceptedUpToLimit(c.template, s.buffer.withTemplate, |s.buffer.events| + 1);
  }

  /** Without room exactly one message goes out, holding the limit, and the record starts the next one. */
  lemma NoRoomMeansOneSend(c: Config, w: World, s: Worker, e: ConntrackEvent)
    requires Exportable(c.template)
    requires |s.buffer.events| == AcceptLimit(c.template, s.buffer.withTemplate)
    ensures var r := AddEvent(c, w, s, e);
            && SendsTheBuffer(s, r) && |r.sent| == |s.sent| + 1
            && r.messageActive == s.messageActive
            && r.buffer.events == [e] && r.buffer.withTemplate == r.includeTemplate
            && (r.includeTemplate <==> s.includeTemplate && !s.buffer.withTemplate)
            && |s.buffer.events| > 0 && 1 <= AcceptLimit(c.template, r.buffer.withTemplate)
  {
    LimitsArePositive(c.template, s.buffer.withTemplate);
    LimitsArePositive(c.template, Flush(c, w, s, MessageFull).includeTemplate);
    RetryAlwaysFits(c, w, s);
    FlushSendsTheBuffer(c, w, s, MessageFull);
    FlushMeans(c, w, s, MessageFull);
    FlagAfterFlush(c, w, s, MessageFull);
    hide Template.RecordFits, AcceptLimit, Flush, Exportable;
    AcceptedUpToLimit(c.template, s.buffer.withTemplate, |s.buffer.events| + 1);
  }

  lemma LimitsArePositive(t: Template, withTemplate: bool)
    requires Exportable(t)
    ensures t.recordSize > 0 && 1 <= AcceptLimit(t, withTemplate)
  {
    FirstRecordFits(t, withTemplate);
    hide AcceptLimit, Template.RecordFits, FieldIsSound;
    AcceptedUpToLimit(t, withTemplate, 1);
  }

  lemma FlagAfterFlush(c: Config, w: World, s: Worker, reason: Reason)
    requires HasPendingOutput(s)
    ensures Flush(c, w, s, reason).includeTemplate <==> s.includeTemplate && !s.buffer.withTemplate
  {
    hide BytesToSend;
  }

  /** The active message holds no more than its limit. */
  predicate WithinLimit(c: Config, s: Worker)
    requires c.template.recordSize > 0
  {
    s.messageActive ==> |s.buffer.events| <= AcceptLimit(c.template, s.buffer.withTemplate)
  }

  /** `r` continues the log of `s`, with full messages only. */
  ghost predicate AddsFullOnly(c: Config, s: Worker, r: Worker)
    requires c.template.recordSize > 0
  {
    && |s.sent| <= |r.sent| && r.sent[..|s.sent|] == s.sent
    && forall i :: |s.sent| <= i < |r.sent| ==> |r.sent[i].events| == AcceptLimit(c.template, r.sent[i].withTemplate)
  }

  lemma AddsFullOnlyTwice(c: Config, s: Worker, t: Worker, r: Worker)
    requires c.template.recordSize > 0 && AddsFullOnly(c, s, t) && AddsFullOnly(c, t, r)
    ensures AddsFullOnly(c, s, r)
  {
    hide AcceptLimit;
    assert r.sent[..|s.sent|] == r.sent[..|t.sent|][..|s.sent|];
    forall i | |s.sent| <= i < |r.sent|
      ensures |r.sent[i].events| == AcceptLimit(c.template, r.sent[i].withTemplate)
    {
      if i < |t.sent| {
        assert r.sent[i] == r.sent[..|t.sent|][i] == t.sent[i];
      }
    }
  }

  lemma SameLogAddsNothing(c: Config, s: Worker, r: Worker)
    requires c.template.recordSize > 0 && r.sent == s.sent
    ensures AddsFullOnly(c, s, r)
  {
  }

  lemma AddEventFills(c: Config, w: World, s: Worker, e: ConntrackEvent)
    requires Exportable(c.template) && c.template.recordSize > 0 && s.messageActive && WithinLimit(c, s)
    ensures var r := AddEvent(c, w, s, e);
            AddsFullOnly(c, s, r) && WithinLimit(c, r) && r.messageActive
  {
    hide AddEvent, Exportable, AcceptLimit;
    if |s.buffer.events| < AcceptLimit(c.template, s.buffer.withTemplate) {
      RoomMeansNoSend(c, w, s, e);
    } else {
      NoRoomMeansOneSend(c, w, s, e);
    }
  }

  lemma {:induction false} AddEventsFill(c: Config, w: World, s: Worker, events: seq<ConntrackEvent>)
    requires Exportable(c.template) && c.template.recordSize > 0 && s.messageActive && WithinLimit(c, s)
    ensures var r := AddEvents(c, w, s, events);
            AddsFullOnly(c, s, r) && WithinLimit(c, r) && r.messageActive
    decreases |events|
  {
    hide AddEvent, Exportable, WithinLimit, AddsFullOnly;
    if events == [] {
      SameLogAddsNothing(c, s, s);
    } else {
      AddEventFills(c, w, s, events[0]);
      AddEventsFill(c, w, AddEvent(c, w, s, events[0]), events[1..]);
      AddsFullOnlyTwice(c, s, AddEvent(c, w, s, events[0]), AddEvents(c, w, s, events));
    }
  }

  lemma ActivateFills(c: Config, s: Worker)
    requires c.template.recordSize > 0 && WithinLimit(c, s)
    ensures Activate(s).messageActive && WithinLimit(c, Activate(s)) && Activate(s).sent == s.sent
  {
    hide AcceptLimit;
  }

  /** A kernel datagram with anything in it leaves a message active; any other datagram is not looked at. */
  lemma TakeDatagramFills(c: Config, w: World, s: Worker, d: Datagram)
    requires Exportable(c.template) && c.template.recordSize > 0 && WithinLimit(c, s)
    ensures var r := TakeDatagram(c, w, s, d);
            && AddsFullOnly(c, s, r) && WithinLimit(c, r)
            && (d.senderPortId == 0 && d.bytes != [] ==> r.messageActive)
            && (d.senderPortId != 0 || d.bytes == [] ==> r == s)
            && (s.messageActive ==> r.messageActive)
  {
    hide AddEvents, Activate, Exportable, WithinLimit, AddsFullOnly, Netlink.ParseEvents;
    if d.senderPortId == 0 && d.bytes != [] {
      ActivateFills(c, s);
      AddEventsFill(c, w, Activate(s), Netlink.ParseEvents(c.host, d.bytes));
      SameLogAddsNothing(c, s, Activate(s));
      AddsFullOnlyTwice(c, s, Activate(s), TakeDatagram(c, w, s, d));
    } else {
      SameLogAddsNothing(c, s, s);
    }
  }

  /** Some datagram is from the kernel and not empty. */
  ghost predicate AnyFromKernel(ds: seq<Datagram>) {
    exists i :: 0 <= i < |ds| && ds[i].senderPortId == 0 && ds[i].bytes != []
  }

  ghost predicate Ingests(c: Config, s: Worker, r: Worker, ds: seq<Datagram>)
    requires c.template.recordSize > 0
  {
    && AddsFullOnly(c, s, r) && WithinLimit(c, r)
    && (s.messageActive || AnyFromKernel(ds) ==> r.messageActive)
    && (!AnyFromKernel(ds) ==> r == s)
  }

  lemma IngestsTwice(c: Config, s: Worker, xs: seq<Datagram>, t: Worker, ys: seq<Datagram>, r: Worker)
    requires c.template.recordSize > 0 && Ingests(c, s, t, xs) && Ingests(c, t, r, ys)
    ensures Ingests(c, s, r, xs + ys)
  {
    AddsFullOnlyTwice(c, s, t, r);
    hide AddsFullOnly, WithinLimit;
    if AnyFromKernel(xs + ys) {
      var i :| 0 <= i < |xs + ys| && (xs + ys)[i].senderPortId == 0 && (xs + ys)[i].bytes != [];
      assert i < |xs| ==> (xs + ys)[i] == xs[i];
      assert i >= |xs| ==> (xs + ys)[i] == ys[i - |xs|];
    } else {
      assert forall i :: 0 <= i < |xs| ==> xs[i] == (xs + ys)[i];
      assert forall i :: 0 <= i < |ys| ==> ys[i] == (xs + ys)[|xs| + i];
    }
  }

  lemma {:induction false} TakeDatagramsFill(c: Config, w: World, s: Worker, ds: seq<Datagram>)
    requires Exportable(c.template) && c.template.recordSize > 0 && WithinLimit(c, s)
    ensures Ingests(c, s, TakeDatagrams(c, w, s, ds), ds)
    decreases |ds|
  {
    hide TakeDatagram, Exportable, WithinLimit, AddsFullOnly;
    if ds == [] {
      SameLogAddsNothing(c, s, s);
    } else {
      TakeDatagramFills(c, w, s, ds[0]);
      var next := TakeDatagram(c, w, s, ds[0]);
      assert Ingests(c, s, next, [ds[0]]) by {
        assert AnyFromKernel([ds[0]]) <==> ds[0].senderPortId == 0 && ds[0].bytes != [] by {
          assert [ds[0]][0] == ds[0];
        }
      }
      TakeDatagramsFill(c, w, next, ds[1..]);
      IngestsTwice(c, s, [ds[0]], next, ds[1..], TakeDatagrams(c, w, s, ds));
      assert [ds[0]] + ds[1..] == ds;
    }
  }

  lemma {:induction false} DrainFills(c: Config, w: World, s: Worker, batches: seq<Receive>, budget: nat)
    requires Exportable(c.template) && c.template.recordSize > 0 && WithinLimit(c, s)
    ensures Ingests(c, s, Drain(c, w, s, batches, budget), Drained(batches, budget))
    decreases budget
  {
    hide TakeDatagrams, Exportable, WithinLimit, AddsFullOnly;
    if budget == 0 || batches == [] || batches[0].NothingRead? || batches[0].datagrams == [] {
      SameLogAddsNothing(c, s, s);
    } else {
      var ds := batches[0].datagrams;
      var next := TakeDatagrams(c, w, s, ds);
      TakeDatagramsFill(c, w, s, ds);
      if |ds| >= RECV_BATCH_SIZE {
        hide Ingests;
        DrainFills(c, w, next, batches[1..], budget - 1);
        IngestsTwice(c, s, ds, next, Drained(batches[1..], budget - 1), Drain(c, w, s, batches, budget));
      }
    }
  }

  /**
   * A poll with data to read only sends full messages. It leaves a message active if it read anything from the
   * kernel, and the worker untouched if it did not.
   */
  lemma ReadyPollSendsFullOnly(c: Config, w: World, s: Worker, p: Poll)
    requires Exportable(c.template) && WithinLimit(c, s)
    requires p.Polled? && p.signals == [] && p.ready
    ensures Ingests(c, s, AfterPoll(c, w, s, p), PollDatagrams(p))
  {
    LimitsArePositive(c.template, true);
    hide Ingests, Drain, Drained, WithinLimit, Exportable;
    DrainFills(c, w, s, p.batches, MAX_BATCHES_PER_POLL);
  }

  // ---- Every message has a cause ----

  ghost predicate Continues(s: Worker, r: Worker) {
    |s.sent| <= |r.sent| && r.sent[..|s.sent|] == s.sent
  }

  lemma ContinuesTwice(s: Worker, t: Worker, r: Worker)
    requires Continues(s, t) && Continues(t, r)
    ensures Continues(s, r)
  {
    assert r.sent[..|s.sent|] == r.sent[..|t.sent|][..|s.sent|];
  }

  /** At the top of the loop at most one message goes out: the template, alone. */
  lemma TopOfLoopSends(c: Config, w: World, s: Worker)
    requires c.template.recordSize > 0 && WithinLimit(c, s)
    ensures var top := BeforePoll(c, w, s);
            && WithinLimit(c, top) && Continues(s, top) && |top.sent| <= |s.sent| + 1
            && (|top.sent| > |s.sent| ==>
                  && top.sent[|s.sent|].events == [] && top.sent[|s.sent|].withTemplate
                  && !s.messageActive
                  && (s.includeTemplate || w.clock(s.clockReads) >= s.lastTemplateTime + c.interval))
  {
    hide BytesToSend, AcceptLimit, Encoder.NextSequence;
  }

  lemma TurnKeepsLimit(c: Config, w: World, s: Worker, p: Poll)
    requires Exportable(c.template) && c.template.recordSize > 0 && WithinLimit(c, s)
    ensures WithinLimit(c, Turn(c, w, s, p))
    ensures Continues(BeforePoll(c, w, s), Turn(c, w, s, p))
  {
    TopOfLoopSends(c, w, s);
    hide BeforePoll, AfterPoll, Exportable, AcceptLimit, PollDatagrams;
    var top := BeforePoll(c, w, s);
    if !p.Polled? || p.signals != [] {
      OtherPollsChangeNothing(c, w, top, p);
    } else if p.ready {
      ReadyPollSendsFullOnly(c, w, top, p);
    } else {
      QuietPollSends(c, w, top, p);
    }
  }

  lemma {:induction false} AtKeepsLimit(c: Config, w: World, s: Worker, polls: seq<Poll>, k: nat)
    requires Exportable(c.template) && c.template.recordSize > 0 && WithinLimit(c, s) && k <= |polls|
    ensures WithinLimit(c, At(c, w, s, polls, k))
  {
    hide Turn, Exportable, WithinLimit;
    if k > 0 {
      AtKeepsLimit(c, w, s, polls, k - 1);
      TurnKeepsLimit(c, w, At(c, w, s, polls, k - 1), polls[k - 1]);
    }
  }

  datatype Cause = TemplateFellDue | NothingToRead | Signalled

  /** Message `i` of the log goes out in turn `k`, and for this reason. */
  ghost predicate SentBecause(c: Config, w: World, s: Worker, polls: seq<Poll>, i: nat, k: nat, cause: Cause) {
    && k < |polls| && AllGoOn(polls, k)
    && var start := At(c, w, s, polls, k);
       var top := BeforePoll(c, w, start);
       match cause
       case TemplateFellDue =>
         && i == |start.sent| < |top.sent| && top.sent[i].events == [] && top.sent[i].withTemplate
         && (start.includeTemplate || w.clock(start.clockReads) >= start.lastTemplateTime + c.interval)
       case NothingToRead =>
         && polls[k].Polled? && polls[k].signals == [] && !polls[k].ready
         && i == |top.sent| && top.messageActive
       case Signalled =>
         && IsSignalled(polls[k])
         && i == |top.sent| && top.messageActive
  }

  lemma {:induction false} CauseUpTo(c: Config, w: World, s: Worker, polls: seq<Poll>, k: nat, i: nat)
      returns (j: nat, cause: Cause)
    requires Exportable(c.template) && c.template.recordSize > 0 && WithinLimit(c, s)
    requires k <= |polls| && AllGoOn(polls, k)
    requires |s.sent| <= i < |At(c, w, s, polls, k).sent|
    requires var m := At(c, w, s, polls, k).sent[i]; |m.events| != AcceptLimit(c.template, m.withTemplate)
    ensures SentBecause(c, w, s, polls, i, j, cause)
  {
    hide BeforePoll, AfterPoll, Exportable, AcceptLimit, PollDatagrams;
    assert k > 0;
    var start, p := At(c, w, s, polls, k - 1), polls[k - 1];
    var top := BeforePoll(c, w, start);
    AtKeepsLimit(c, w, s, polls, k - 1);
    TopOfLoopSends(c, w, start);
    TurnKeepsLimit(c, w, start, p);
    var end := Turn(c, w, start, p);
    if i < |start.sent| {
      assert end.sent[i] == top.sent[i] == start.sent[i] by {
        assert end.sent[i] == end.sent[..|top.sent|][i];
        assert top.sent[i] == top.sent[..|start.sent|][i];
      }
      j, cause := CauseUpTo(c, w, s, polls, k - 1, i);
    } else if i < |top.sent| {
      j, cause := k - 1, TemplateFellDue;
    } else {
      assert GoesOn(p);
      j, cause := k - 1, NothingToRead;
      CauseAfterPoll(c, w, top, p, i);
    }
  }

  lemma CauseAfterPoll(c: Config, w: World, top: Worker, p: Poll, i: nat)
    requires Exportable(c.template) && c.template.recordSize > 0 && WithinLimit(c, top) && GoesOn(p)
    requires |top.sent| <= i < |AfterPoll(c, w, top, p).sent|
    requires var m := AfterPoll(c, w, top, p).sent[i]; |m.events| != AcceptLimit(c.template, m.withTemplate)
    ensures p.Polled? && p.signals == [] && !p.ready && i == |top.sent| && top.messageActive
  {
    hide AfterPoll, Exportable, AcceptLimit, PollDatagrams, WithinLimit;
    if !p.Polled? {
      OtherPollsChangeNothing(c, w, top, p);
    } else if p.ready {
      ReadyPollSendsFullOnly(c, w, top, p);
    } else {
      QuietPollSends(c, w, top, p);
    }
  }

  /**
   * Every message of every run that does not hold exactly the records its limit allows was sent for one of three
   * reasons: the template fell due with no message active and went out alone, `poll` found nothing to read, or a
   * signal ended the run. Ingesting records never sends anything but full messages.
   */
  lemma ShortMessagesHaveACause(c: Config, w: World, polls: seq<Poll>, i: nat) returns (k: nat, cause: Cause)
    requires Exportable(c.template)
    requires i < |Run(c, w, Initial(w), polls).sent|
    requires var m := Run(c, w, Initial(w), polls).sent[i]; |m.events| != AcceptLimit(c.template, m.withTemplate)
    ensures SentBecause(c, w, Initial(w), polls, i, k, cause)
  {
    LimitsArePositive(c.template, true);
    hide *;
    var s := Initial(w);
    NothingActiveYet(c, w);
    k := FirstEnd(polls);
    AtKeepsLimit(c, w, s, polls, k);
    if i < |At(c, w, s, polls, k).sent| {
      CauseBeforeEnd(c, w, s, polls, k, i);
      k, cause := CauseUpTo(c, w, s, polls, k, i);
    } else {
      cause := CauseAtEnd(c, w, s, polls, k, i);
    }
  }

  lemma CauseAtEnd(c: Config, w: World, s: Worker, polls: seq<Poll>, k: nat, i: nat) returns (cause: Cause)
    requires c.template.recordSize > 0 && k <= |polls| && AllGoOn(polls, k)
    requires WithinLimit(c, At(c, w, s, polls, k))
    requires k < |polls| ==> IsSignalled(polls[k]) || IsBroken(polls[k])
    requires |At(c, w, s, polls, k).sent| <= i < |Run(c, w, s, polls).sent|
    ensures SentBecause(c, w, s, polls, i, k, cause)
  {
    RunEnds(c, w, s, polls, k);
    hide Run, At, BeforePoll, Finish, WithinLimit;
    var start := At(c, w, s, polls, k);
    TopOfLoopSends(c, w, start);
    cause := if i < |BeforePoll(c, w, start).sent| then TemplateFellDue else Signalled;
    EndingSends(c, w, s, polls, k);
  }

  lemma NothingActiveYet(c: Config, w: World)
    requires c.template.recordSize > 0
    ensures WithinLimit(c, Initial(w)) && Initial(w).sent == []
  {
  }

  /** Ending a run leaves what was sent before its last turn as it is. */
  lemma CauseBeforeEnd(c: Config, w: World, s: Worker, polls: seq<Poll>, k: nat, i: nat)
    requires c.template.recordSize > 0 && k <= |polls| && AllGoOn(polls, k)
    requires WithinLimit(c, At(c, w, s, polls, k)) && i < |At(c, w, s, polls, k).sent|
    requires k < |polls| ==> !GoesOn(polls[k])
    ensures i < |Run(c, w, s, polls).sent|
    ensures Run(c, w, s, polls).sent[i] == At(c, w, s, polls, k).sent[i]
  {
    RunEnds(c, w, s, polls, k);
    hide Run, At, BeforePoll, Finish, WithinLimit;
    if k < |polls| {
      var start := At(c, w, s, polls, k);
      TopOfLoopSends(c, w, start);
      EndingSends(c, w, s, polls, k);
      var top, r := BeforePoll(c, w, start), Run(c, w, s, polls);
      assert Continues(top, r);
      ContinuesTwice(start, top, r);
      assert r.sent[i] == r.sent[..|start.sent|][i];
    }
  }
}
