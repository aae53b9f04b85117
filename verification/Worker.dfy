/**
 * The worker's event loop as a deterministic machine. Everything the outside world decides (poll results,
 * received datagrams, clock readings, header times, send failures) is an argument.
 */
module Worker {
  import opened Bytes
  import opened Event
  import opened Template
  import opened Record
  import opened Message
  import opened Netlink
  import Encoder

  const RECV_BATCH_SIZE: nat := 16
  const MAX_BATCHES_PER_POLL: nat := 64

  /** What the command line fixes. The interval is in clock ticks. */
  datatype Config = Config(template: Template, domain: u32, interval: nat, host: Endian)

  /** The n-th clock reading, the header times of the n-th message, and whether its send fails. */
  datatype World = World(clock: nat -> nat, stamps: nat -> Stamp, sendFails: nat -> bool)

  datatype Datagram = Datagram(senderPortId: nat, bytes: seq<byte>)

  /** One `recvmmsg`: some datagrams, or nothing to read (drained, interrupted, failed). */
  datatype Receive = Received(datagrams: seq<Datagram>) | NothingRead

  datatype Poll =
    | PollInterrupted
    | PollFailed
    | SignalReadFailed
    | Polled(ready: bool, signals: seq<int>, batches: seq<Receive>)

  datatype Status = Running | ShutDown | Failed

  datatype Reason = TemplateDue | FlushTimeout | MessageFull | ShuttingDown

  /** A message handed to `send`: its contents, and the circumstances. `at` is read for template messages only. */
  datatype Sent = Sent(bytes: seq<byte>, withTemplate: bool, events: seq<ConntrackEvent>, due: bool, at: nat, reason: Reason)

  /** The encoder, as the worker sees it. */
  datatype Buffer = Buffer(withTemplate: bool, events: seq<ConntrackEvent>, sequence: u32, saturated: nat)

  datatype Worker = Worker(
    buffer: Buffer,
    messageActive: bool,
    includeTemplate: bool,
    lastTemplateTime: nat,
    clockReads: nat,
    sent: seq<Sent>,
    sendErrors: nat)

  /** The first clock reading starts the retransmit timer; a template is due at once. */
  function Initial(w: World): Worker {
    Worker(Buffer(false, [], 0, 0), false, true, w.clock(0), 1, [], 0)
  }

  // ---- The encoder's operations ----

  function Begin(s: Worker, withTemplate: bool): Worker {
    s.(buffer := s.buffer.(withTemplate := withTemplate, events := []))
  }

  predicate Fits(c: Config, s: Worker) {
    c.template.RecordFits(s.buffer.withTemplate, |s.buffer.events| + 1)
  }

  function Append(c: Config, s: Worker, e: ConntrackEvent): Worker {
    s.(buffer := s.buffer.(
         events := s.buffer.events + [e],
         saturated := s.buffer.saturated + Saturations(c.template.fields, |c.template.fields|, e)))
  }

  predicate HasPendingOutput(s: Worker) {
    |s.buffer.events| > 0 || s.buffer.withTemplate
  }

  // ---- flush_message ----

  function BytesToSend(c: Config, w: World, s: Worker): seq<byte> {
    EncodeMessage(c.template, s.buffer.withTemplate, w.stamps(|s.sent|), s.buffer.sequence, c.domain, s.buffer.events)
  }

  /** Hand the message to `send`. One with the template clears the due flag and restarts the timer, even if `send` fails. */
  function Flush(c: Config, w: World, s: Worker, reason: Reason): Worker {
    if !HasPendingOutput(s) then s
    else
      var now := w.clock(s.clockReads);
      var m := Sent(BytesToSend(c, w, s), s.buffer.withTemplate, s.buffer.events, s.includeTemplate,
                    if s.buffer.withTemplate then now else 0, reason);
      Worker(
        s.buffer.(sequence := Encoder.NextSequence(c.template.protocol, s.buffer.sequence, |s.buffer.events|)),
        s.messageActive,
        if s.buffer.withTemplate then false else s.includeTemplate,
        if s.buffer.withTemplate then now else s.lastTemplateTime,
        if s.buffer.withTemplate then s.clockReads + 1 else s.clockReads,
        s.sent + [m],
        if w.sendFails(|s.sent|) then s.sendErrors + 1 else s.sendErrors)
  }

  // ---- Ingest ----

  /** The record callback: a full message is sent and the event retried in a fresh one. */
  function AddEvent(c: Config, w: World, s: Worker, e: ConntrackEvent): Worker {
    if Fits(c, s) then Append(c, s, e)
    else
      var flushed := Flush(c, w, s, MessageFull);
      var restarted := Begin(flushed, flushed.includeTemplate);
      if Fits(c, restarted) then Append(c, restarted, e) else restarted
  }

  function AddEvents(c: Config, w: World, s: Worker, events: seq<ConntrackEvent>): Worker
    decreases |events|
  {
    if events == [] then s else AddEvents(c, w, AddEvent(c, w, s, events[0]), events[1..])
  }

  /** Only the kernel, port id 0, is believed, and an empty datagram begins no message. */
  predicate IsIngested(d: Datagram) {
    d.senderPortId == 0 && d.bytes != []
  }

  function Activate(s: Worker): Worker {
    if s.messageActive then s else Begin(s, s.includeTemplate).(messageActive := true)
  }

  function TakeDatagram(c: Config, w: World, s: Worker, d: Datagram): Worker {
    if !IsIngested(d) then s else AddEvents(c, w, Activate(s), ParseEvents(c.host, d.bytes))
  }

  function TakeDatagrams(c: Config, w: World, s: Worker, ds: seq<Datagram>): Worker
    decreases |ds|
  {
    if ds == [] then s else TakeDatagrams(c, w, TakeDatagram(c, w, s, ds[0]), ds[1..])
  }

  /** At most `budget` receives, ending at the first that reads nothing or does not fill its batch. */
  function Drain(c: Config, w: World, s: Worker, batches: seq<Receive>, budget: nat): Worker
    decreases budget
  {
    if budget == 0 || batches == [] || batches[0].NothingRead? || batches[0].datagrams == [] then s
    else
      var next := TakeDatagrams(c, w, s, batches[0].datagrams);
      if |batches[0].datagrams| < RECV_BATCH_SIZE then next else Drain(c, w, next, batches[1..], budget - 1)
  }

  // ---- The loop ----

  /** From the top of the loop to `poll`: note a due retransmit, and send it alone if nothing is buffered. */
  function BeforePoll(c: Config, w: World, s: Worker): Worker {
    var now := w.clock(s.clockReads);
    var noted := s.(clockReads := s.clockReads + 1, includeTemplate := s.includeTemplate || now >= s.lastTemplateTime + c.interval);
    if noted.includeTemplate && !noted.messageActive then Flush(c, w, Begin(noted, true), TemplateDue) else noted
  }

  function StatusAfter(p: Poll): Status {
    match p
    case PollInterrupted => Running
    case PollFailed => Failed
    case SignalReadFailed => Failed
    case Polled(_, signals, _) => if signals != [] then ShutDown else Running
  }

  /** From `poll` to the end of the loop body. */
  function AfterPoll(c: Config, w: World, s: Worker, p: Poll): Worker {
    if !p.Polled? || p.signals != [] then s
    else if !p.ready then
      if s.messageActive then Flush(c, w, s, FlushTimeout).(messageActive := false) else s
    else Drain(c, w, s, p.batches, MAX_BATCHES_PER_POLL)
  }

  function Turn(c: Config, w: World, s: Worker, p: Poll): Worker {
    AfterPoll(c, w, BeforePoll(c, w, s), p)
  }

  /** Buffered records go out on a signal shutdown, and on nothing else that ends the loop. */
  function Finish(c: Config, w: World, s: Worker, status: Status): Worker {
    if status.ShutDown? && s.messageActive then Flush(c, w, s, ShuttingDown) else s
  }

  function StatusOf(polls: seq<Poll>): Status {
    if polls == [] then Running
    else if StatusAfter(polls[0]).Running? then StatusOf(polls[1..])
    else StatusAfter(polls[0])
  }

  /** The run a sequence of poll results drives, from any state. */
  function Run(c: Config, w: World, s: Worker, polls: seq<Poll>): Worker
    decreases |polls|
  {
    if polls == [] then s
    else
      var next := Turn(c, w, s, polls[0]);
      var status := StatusAfter(polls[0]);
      if status.Running? then Run(c, w, next, polls[1..]) else Finish(c, w, next, status)
  }

  // ---- What was ingested, said without the machine ----

  function DatagramEvents(c: Config, d: Datagram): seq<ConntrackEvent> {
    if IsIngested(d) then ParseEvents(c.host, d.bytes) else []
  }

  function DatagramsEvents(c: Config, ds: seq<Datagram>): seq<ConntrackEvent> {
    if ds == [] then [] else DatagramEvents(c, ds[0]) + DatagramsEvents(c, ds[1..])
  }

  /** The datagrams one poll lets through. */
  function Drained(batches: seq<Receive>, budget: nat): seq<Datagram>
    decreases budget
  {
    if budget == 0 || batches == [] || batches[0].NothingRead? || batches[0].datagrams == [] then []
    else if |batches[0].datagrams| < RECV_BATCH_SIZE then batches[0].datagrams
    else batches[0].datagrams + Drained(batches[1..], budget - 1)
  }

  function PollDatagrams(p: Poll): seq<Datagram> {
    if p.Polled? && p.signals == [] && p.ready then Drained(p.batches, MAX_BATCHES_PER_POLL) else []
  }

  /** Everything a run reads. */
  function RunDatagrams(polls: seq<Poll>): seq<Datagram> {
    if polls == [] then []
    else PollDatagrams(polls[0]) + if StatusAfter(polls[0]).Running? then RunDatagrams(polls[1..]) else []
  }

  /** The events of the first `n` messages sent. */
  function SentEvents(sent: seq<Sent>, n: nat): seq<ConntrackEvent>
    requires n <= |sent|
  {
    if n == 0 then [] else SentEvents(sent, n - 1) + sent[n - 1].events
  }

  /** Records accepted but not yet sent. */
  function Buffered(s: Worker): seq<ConntrackEvent> {
    if s.messageActive then s.buffer.events else []
  }

  /** Every event accounted for, in order. */
  function Accounted(s: Worker): seq<ConntrackEvent> {
    SentEvents(s.sent, |s.sent|) + Buffered(s)
  }
}
