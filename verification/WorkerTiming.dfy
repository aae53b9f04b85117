/** The template's timer: which clock readings the log's times are, and how soon a due template goes out. */
module WorkerTiming {
  import opened Event
  import opened Worker
  import opened WorkerPolls
  import opened WorkerSchedule
  import Netlink

  // ---- Lifting what every elementary change keeps to whole runs ----

  /** Any change to the buffered message. */
  function Edit(s: Worker, buffer: Buffer, active: bool): Worker {
    s.(buffer := buffer, messageActive := active)
  }

  /** The clock reading at the top of the loop. */
  function Note(s: Worker, due: bool): Worker {
    s.(clockReads := s.clockReads + 1, includeTemplate := s.includeTemplate || due)
  }

  ghost predicate Closed(c: Config, w: World, inv: Worker -> bool) {
    && (forall s: Worker, reason: Reason :: inv(s) ==> inv(Flush(c, w, s, reason)))
    && (forall s: Worker, buffer: Buffer, active: bool :: inv(s) ==> inv(Edit(s, buffer, active)))
    && (forall s: Worker, due: bool :: inv(s) ==> inv(Note(s, due)))
  }

  lemma AddEventLifts(c: Config, w: World, inv: Worker -> bool, s: Worker, e: ConntrackEvent)
    requires Closed(c, w, inv) && inv(s)
    ensures inv(AddEvent(c, w, s, e))
  {
    hide Flush, Fits, Record.Saturations;
    if Fits(c, s) {
      assert inv(Edit(s, Append(c, s, e).buffer, s.messageActive));
    } else {
      var f := Flush(c, w, s, MessageFull);
      var b := Begin(f, f.includeTemplate);
      assert inv(Edit(f, b.buffer, f.messageActive));
      assert inv(Edit(b, Append(c, b, e).buffer, b.messageActive));
    }
  }

  lemma {:induction false} AddEventsLift(c: Config, w: World, inv: Worker -> bool, s: Worker, events: seq<ConntrackEvent>)
    requires Closed(c, w, inv) && inv(s)
    ensures inv(AddEvents(c, w, s, events))
    decreases |events|
  {
    hide AddEvent, Closed;
    if events != [] {
      AddEventLifts(c, w, inv, s, events[0]);
      AddEventsLift(c, w, inv, AddEvent(c, w, s, events[0]), events[1..]);
    }
  }

  lemma TakeDatagramLifts(c: Config, w: World, inv: Worker -> bool, s: Worker, d: Datagram)
    requires Closed(c, w, inv) && inv(s)
    ensures inv(TakeDatagram(c, w, s, d))
  {
    hide AddEvents, Netlink.ParseEvents;
    if IsIngested(d) {
      assert inv(Edit(s, Activate(s).buffer, true));
      AddEventsLift(c, w, inv, Activate(s), Netlink.ParseEvents(c.host, d.bytes));
    }
  }

  lemma {:induction false} TakeDatagramsLift(c: Config, w: World, inv: Worker -> bool, s: Worker, ds: seq<Datagram>)
    requires Closed(c, w, inv) && inv(s)
    ensures inv(TakeDatagrams(c, w, s, ds))
    decreases |ds|
  {
    hide TakeDatagram, Closed;
    if ds != [] {
      TakeDatagramLifts(c, w, inv, s, ds[0]);
      TakeDatagramsLift(c, w, inv, TakeDatagram(c, w, s, ds[0]), ds[1..]);
    }
  }

  lemma {:induction false} DrainLifts(c: Config, w: World, inv: Worker -> bool, s: Worker, batches: seq<Receive>, budget: nat)
    requires Closed(c, w, inv) && inv(s)
    ensures inv(Drain(c, w, s, batches, budget))
    decreases budget
  {
    hide TakeDatagrams, Closed;
    if budget == 0 || batches == [] || batches[0].NothingRead? || batches[0].datagrams == [] {
    } else {
      TakeDatagramsLift(c, w, inv, s, batches[0].datagrams);
      if |batches[0].datagrams| >= RECV_BATCH_SIZE {
        DrainLifts(c, w, inv, TakeDatagrams(c, w, s, batches[0].datagrams), batches[1..], budget - 1);
      }
    }
  }

  lemma BeforePollLifts(c: Config, w: World, inv: Worker -> bool, s: Worker)
    requires Closed(c, w, inv) && inv(s)
    ensures inv(BeforePoll(c, w, s))
  {
    hide Flush;
    var noted := Note(s, w.clock(s.clockReads) >= s.lastTemplateTime + c.interval);
    assert inv(noted);
    assert inv(Edit(noted, Begin(noted, true).buffer, noted.messageActive));
  }

  lemma AfterPollLifts(c: Config, w: World, inv: Worker -> bool, s: Worker, p: Poll)
    requires Closed(c, w, inv) && inv(s)
    ensures inv(AfterPoll(c, w, s, p))
  {
    hide Flush, Drain;
    if p.Polled? {
      DrainLifts(c, w, inv, s, p.batches, MAX_BATCHES_PER_POLL);
    }
    var f := Flush(c, w, s, FlushTimeout);
    assert inv(Edit(f, f.buffer, false));
  }

  lemma {:induction false} RunLifts(c: Config, w: World, inv: Worker -> bool, s: Worker, polls: seq<Poll>)
    requires Closed(c, w, inv) && inv(s)
    ensures inv(Run(c, w, s, polls))
    decreases |polls|
  {
    hide BeforePoll, AfterPoll, Flush;
    if polls != [] {
      BeforePollLifts(c, w, inv, s);
      AfterPollLifts(c, w, inv, BeforePoll(c, w, s), polls[0]);
      if StatusAfter(polls[0]).Running? {
        RunLifts(c, w, inv, Turn(c, w, s, polls[0]), polls[1..]);
      }
    }
  }

  lemma {:induction false} AtLifts(c: Config, w: World, inv: Worker -> bool, s: Worker, polls: seq<Poll>, k: nat)
    requires Closed(c, w, inv) && inv(s) && k <= |polls|
    ensures inv(At(c, w, s, polls, k))
  {
    hide BeforePoll, AfterPoll, Closed;
    if k > 0 {
      AtLifts(c, w, inv, s, polls, k - 1);
      var before := At(c, w, s, polls, k - 1);
      BeforePollLifts(c, w, inv, before);
      AfterPollLifts(c, w, inv, BeforePoll(c, w, before), polls[k - 1]);
    }
  }

  // ---- Times in the log are clock readings ----

  /** Sending a message with the template reads the clock once, and timer and log take that reading. */
  lemma TemplateIsTimedBySend(c: Config, w: World, s: Worker, reason: Reason)
    requires s.buffer.withTemplate
    ensures var r := Flush(c, w, s, reason);
            && |r.sent| == |s.sent| + 1
            && r.sent[|s.sent|].at == r.lastTemplateTime == w.clock(s.clockReads)
            && r.clockReads == s.clockReads + 1 && !r.includeTemplate
  {
    hide BytesToSend;
  }

  /** A message without it leaves timer, flag and clock alone. */
  lemma PlainMessageIsNotTimed(c: Config, w: World, s: Worker, reason: Reason)
    requires !s.buffer.withTemplate
    ensures var r := Flush(c, w, s, reason);
            && r.lastTemplateTime == s.lastTemplateTime && r.clockReads == s.clockReads
            && r.includeTemplate == s.includeTemplate
  {
    hide BytesToSend;
  }

  /** When the latest template went out; the first reading of the clock before there was one. */
  function LastTemplateAt(w: World, sent: seq<Sent>): nat {
    if sent == [] then w.clock(0)
    else if sent[|sent| - 1].withTemplate then sent[|sent| - 1].at
    else LastTemplateAt(w, sent[..|sent| - 1])
  }

  ghost predicate IsReading(w: World, at: nat, before: nat) {
    exists n :: 1 <= n < before && at == w.clock(n)
  }

  /** The timer stands at the latest template, and every template's time is a reading the run has made. */
  ghost predicate TimesAreReadings(w: World, s: Worker) {
    && s.clockReads >= 1
    && s.lastTemplateTime == LastTemplateAt(w, s.sent)
    && forall i :: 0 <= i < |s.sent| && s.sent[i].withTemplate ==> IsReading(w, s.sent[i].at, s.clockReads)
  }

  lemma FlushKeepsReadings(c: Config, w: World, s: Worker, reason: Reason)
    requires TimesAreReadings(w, s)
    ensures TimesAreReadings(w, Flush(c, w, s, reason))
  {
    hide BytesToSend, IsReading;
    if HasPendingOutput(s) {
      var r := Flush(c, w, s, reason);
      assert r.sent[..|s.sent|] == s.sent;
      forall i | 0 <= i < |r.sent| && r.sent[i].withTemplate
        ensures IsReading(w, r.sent[i].at, r.clockReads)
      {
        if i < |s.sent| {
          LaterReading(w, s.sent[i].at, s.clockReads, r.clockReads);
        } else {
          NewReading(w, s.clockReads);
        }
      }
    }
  }

  lemma LaterReading(w: World, at: nat, before: nat, later: nat)
    requires IsReading(w, at, before) && before <= later
    ensures IsReading(w, at, later)
  {
  }

  lemma NewReading(w: World, n: nat)
    requires n >= 1
    ensures IsReading(w, w.clock(n), n + 1)
  {
  }

  lemma NoteKeepsReadings(w: World, s: Worker, due: bool)
    requires TimesAreReadings(w, s)
    ensures TimesAreReadings(w, Note(s, due))
  {
    hide IsReading, LastTemplateAt;
    forall i | 0 <= i < |s.sent| && s.sent[i].withTemplate
      ensures IsReading(w, s.sent[i].at, s.clockReads + 1)
    {
      LaterReading(w, s.sent[i].at, s.clockReads, s.clockReads + 1);
    }
  }

  ghost function ReadingsInv(w: World): Worker -> bool { s => TimesAreReadings(w, s) }

  lemma ReadingsAreClosed(c: Config, w: World)
    ensures Closed(c, w, ReadingsInv(w))
  {
    hide Flush, IsReading, LastTemplateAt;
    forall s: Worker, reason: Reason | ReadingsInv(w)(s)
      ensures ReadingsInv(w)(Flush(c, w, s, reason))
    {
      FlushKeepsReadings(c, w, s, reason);
    }
    forall s: Worker, due: bool | ReadingsInv(w)(s)
      ensures ReadingsInv(w)(Note(s, due))
    {
      NoteKeepsReadings(w, s, due);
    }
  }

  /** In every run the times the schedule speaks of are the world's: template times are clock readings. */
  lemma LoggedTimesAreReadings(c: Config, w: World, polls: seq<Poll>)
    ensures TimesAreReadings(w, Run(c, w, Initial(w), polls))
  {
    hide Run, Closed;
    ReadingsAreClosed(c, w);
    RunLifts(c, w, ReadingsInv(w), Initial(w), polls);
  }

  // ---- A due template goes out with the next message or the one after ----

  /** The flag is still set, or the message that was sent first since then carried the template or says it was due. */
  predicate FlagKept(s: Worker, n: nat) {
    || (|s.sent| == n && s.includeTemplate)
    || (|s.sent| > n && (s.sent[n].withTemplate || s.sent[n].due))
  }

  ghost function FlagInv(n: nat): Worker -> bool { s => FlagKept(s, n) }

  lemma FlagIsClosed(c: Config, w: World, n: nat)
    ensures Closed(c, w, FlagInv(n))
  {
    hide BytesToSend, Encoder.NextSequence;
  }

  /**
   * If the deadline has passed at the top of turn `k`, then of everything sent from there on at most the first
   * message goes without the template: the message then under construction.
   */
  lemma RetransmitIsPrompt(c: Config, w: World, polls: seq<Poll>, k: nat)
    requires Monotone(w) && k < |polls| && AllGoOn(polls, k)
    requires var start := At(c, w, Initial(w), polls, k);
             w.clock(start.clockReads) >= LastTemplateAt(w, start.sent) + c.interval
    ensures var n := |At(c, w, Initial(w), polls, k).sent|;
            var sent := Run(c, w, Initial(w), polls).sent;
            |sent| > n + 1 ==> sent[n].withTemplate || sent[n + 1].withTemplate
  {
    var s := Initial(w);
    var start := At(c, w, s, polls, k);
    var n := |start.sent|;
    hide Closed, Run, At, Turn, Monotone, LastTemplateAt;
    ReadingsAreClosed(c, w);
    AtLifts(c, w, ReadingsInv(w), s, polls, k);
    FlagIsClosed(c, w, n);
    FlagAtTop(c, w, start, n);
    assert FlagInv(n)(BeforePoll(c, w, start));
    RestOfRun(c, w, s, polls, k);
    RestLifts(c, w, FlagInv(n), start, polls[k..]);
    TemplateSchedule(c, w, polls);
  }

  /** The rest of a run is a run from where it stands. */
  lemma {:induction false} RestOfRun(c: Config, w: World, s: Worker, polls: seq<Poll>, k: nat)
    requires k <= |polls| && AllGoOn(polls, k)
    ensures Run(c, w, s, polls) == Run(c, w, At(c, w, s, polls, k), polls[k..])
    decreases k
  {
    hide Turn;
    if k == 0 {
      assert polls[0..] == polls;
    } else {
      RestOfRun(c, w, s, polls, k - 1);
      var here := polls[k - 1..];
      assert here[0] == polls[k - 1] && here[1..] == polls[k..];
      assert GoesOn(polls[k - 1]);
    }
  }

  lemma FlagAtTop(c: Config, w: World, s: Worker, n: nat)
    requires w.clock(s.clockReads) >= s.lastTemplateTime + c.interval && n == |s.sent|
    ensures FlagKept(BeforePoll(c, w, s), n)
  {
    hide BytesToSend, Encoder.NextSequence;
  }

  /** What holds from the first top of loop on holds at the end. */
  lemma RestLifts(c: Config, w: World, inv: Worker -> bool, s: Worker, polls: seq<Poll>)
    requires Closed(c, w, inv) && polls != [] && inv(BeforePoll(c, w, s))
    ensures inv(Run(c, w, s, polls))
  {
    hide BeforePoll, AfterPoll, Flush;
    var top := BeforePoll(c, w, s);
    AfterPollLifts(c, w, inv, top, polls[0]);
    var next := AfterPoll(c, w, top, polls[0]);
    if StatusAfter(polls[0]).Running? {
      RunLifts(c, w, inv, next, polls[1..]);
    } else {
      assert inv(Flush(c, w, next, ShuttingDown));
    }
  }

  ghost function SentInv(): Worker -> bool { (s: Worker) => s.sent != [] }

  lemma SentIsClosed(c: Config, w: World)
    ensures Closed(c, w, SentInv())
  {
    hide BytesToSend, Encoder.NextSequence;
  }

  /** A run that gets as far as its first `poll` has sent a message. */
  lemma EveryRunSends(c: Config, w: World, polls: seq<Poll>)
    requires polls != []
    ensures Run(c, w, Initial(w), polls).sent != []
  {
    SentIsClosed(c, w);
    TemplateGoesOutFirst(c, w);
    hide Closed, Run, BeforePoll;
    RestLifts(c, w, SentInv(), Initial(w), polls);
  }

  lemma TemplateGoesOutFirst(c: Config, w: World)
    ensures var sent := BeforePoll(c, w, Initial(w)).sent;
            |sent| == 1 && sent[0].withTemplate && sent[0].events == []
  {
    hide BytesToSend;
  }
}
