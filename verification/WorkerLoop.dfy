/** The worker as it is written: flags, timers and the encoder updated in place, refining the machine. */
module WorkerLoop {
  import opened Bytes
  import opened Event
  import opened Template
  import opened Record
  import opened Message
  import opened Netlink
  import W = Worker
  import E = Encoder

  class WorkerProcess {
    const config: W.Config
    const world: W.World
    const encoder: E.Encoder
    var messageActive: bool
    var includeTemplate: bool
    var lastTemplateTime: nat
    var clockReads: nat
    var sendErrors: nat

    /** The datagrams handed to `send`, oldest first. */
    var datagrams: seq<seq<byte>>

    /** The same, with the circumstances of each. */
    ghost var sent: seq<W.Sent>

    ghost function Model(): W.Worker
      reads this, encoder
    {
      W.Worker(
        W.Buffer(encoder.templateIncluded, encoder.events, encoder.sequenceNumber, encoder.saturatedCounters),
        messageActive, includeTemplate, lastTemplateTime, clockReads, sent, sendErrors)
    }

    /** Holds at every point of the loop. */
    ghost predicate Core()
      reads this, encoder, encoder.buf
    {
      && encoder.Sized()
      && encoder.template == config.template
      && encoder.observationDomainId == config.domain
      && encoder.recordCount == |encoder.events|
      && |datagrams| == |sent|
      && forall i :: 0 <= i < |sent| ==> datagrams[i] == sent[i].bytes
    }

    /** Holds between steps: an active message is one under construction. */
    ghost predicate Valid()
      reads this, encoder, encoder.buf
    {
      Core() && (messageActive ==> encoder.Open())
    }

    constructor (c: W.Config, w: W.World)
      requires Exportable(c.template)
      ensures Valid() && fresh(encoder) && fresh(encoder.buf)
      ensures config == c && world == w
      ensures Model() == W.Initial(w)
    {
      config, world := c, w;
      encoder := new E.Encoder(c.domain, c.template);
      messageActive, includeTemplate := false, true;
      lastTemplateTime, clockReads, sendErrors := w.clock(0), 1, 0;
      datagrams, sent := [], [];
    }

    /** `Instant::now()`. */
    method Now() returns (now: nat)
      modifies this`clockReads
      ensures now == world.clock(old(clockReads)) && clockReads == old(clockReads) + 1
    {
      now := world.clock(clockReads);
      clockReads := clockReads + 1;
    }

    /** Finalise the message and hand it to `send`. */
    method Transmit(ghost due: bool, ghost at: nat, ghost reason: W.Reason)
      requires Core() && encoder.Open()
      modifies this`sendErrors, this`datagrams, this`sent, encoder`offset, encoder`sequenceNumber, encoder.buf
      ensures Core()
      ensures sent == old(sent) + [W.Sent(
                EncodeMessage(config.template, encoder.templateIncluded, world.stamps(old(|sent|)),
                              old(encoder.sequenceNumber), config.domain, encoder.events),
                encoder.templateIncluded, encoder.events, due, at, reason)]
      ensures sendErrors == if world.sendFails(old(|sent|)) then old(sendErrors) + 1 else old(sendErrors)
      ensures encoder.sequenceNumber ==
              E.NextSequence(config.template.protocol, old(encoder.sequenceNumber), |encoder.events|)
    {
      hide EncodeMessage, E.NextSequence, E.Encoder.Open, E.Encoder.Sized;
      var data, count := encoder.Finalize(world.stamps(|datagrams|));
      if world.sendFails(|datagrams|) {
        sendErrors := sendErrors + 1;
      }
      datagrams := datagrams + [data];
      sent := sent + [W.Sent(data, encoder.templateIncluded, encoder.events, due, at, reason)];
    }

    method FlushMessage(ghost reason: W.Reason)
      requires Core() && encoder.Open()
      modifies this`includeTemplate, this`lastTemplateTime, this`clockReads, this`sendErrors, this`datagrams, this`sent,
               encoder`offset, encoder`sequenceNumber, encoder.buf
      ensures Core()
      ensures Model() == W.Flush(config, world, old(Model()), reason)
    {
      hide EncodeMessage, E.NextSequence, E.Encoder.Open, E.Encoder.Sized;
      if !encoder.HasPendingOutput() {
        return;
      }
      ghost var due, at := includeTemplate, 0;
      if encoder.templateIncluded {
        includeTemplate := false;
        lastTemplateTime := Now();
        at := lastTemplateTime;
      }
      Transmit(due, at, reason);
    }

    /** The callback `parse_conntrack_messages` makes for each event. */
    method OnEvent(e: ConntrackEvent)
      requires Valid() && messageActive
      modifies this, encoder, encoder.buf
      ensures Valid() && messageActive
      ensures Model() == W.AddEvent(config, world, old(Model()), e)
    {
      hide W.Flush, Exportable, E.Encoder.Open, Saturations, Template.RecordFits;
      OpenIsSized();
      var added := encoder.AddRecord(e);
      OpenIsSized();
      if !added {
        FlushMessage(W.MessageFull);
        encoder.BeginMessage(includeTemplate);
        added := encoder.AddRecord(e);
        OpenIsSized();
      }
    }

    lemma OpenIsSized()
      ensures encoder.Open() ==> encoder.Sized() && encoder.recordCount == |encoder.events|
    {
      encoder.OpenMeans();
    }

    method OnDatagram(d: W.Datagram)
      requires Valid()
      modifies this, encoder, encoder.buf
      ensures Valid()
      ensures Model() == W.TakeDatagram(config, world, old(Model()), d)
    {
      hide W.AddEvent, E.Encoder.Open, ParseEvents, Exportable;
      if d.senderPortId != 0 {
        return;
      }
      if |d.bytes| == 0 {
        return;
      }
      if !messageActive {
        encoder.BeginMessage(includeTemplate);
        OpenIsSized();
        messageActive := true;
      }
      assert Model() == W.Activate(old(Model()));
      ghost var active := Model();
      var events := ParseConntrackMessages(config.host, d.bytes);
      for i := 0 to |events|
        invariant Valid() && messageActive
        invariant W.AddEvents(config, world, Model(), events[i..]) == W.AddEvents(config, world, active, events)
      {
        assert events[i..][1..] == events[i + 1..];
        OnEvent(events[i]);
      }
      assert events[|events|..] == [];
    }

    method OnBatch(ds: seq<W.Datagram>)
      requires Valid()
      modifies this, encoder, encoder.buf
      ensures Valid()
      ensures Model() == W.TakeDatagrams(config, world, old(Model()), ds)
    {
      hide W.TakeDatagram, E.Encoder.Open, Core;
      for i := 0 to |ds|
        invariant Valid()
        invariant W.TakeDatagrams(config, world, Model(), ds[i..]) == W.TakeDatagrams(config, world, old(Model()), ds)
      {
        assert ds[i..][1..] == ds[i + 1..];
        OnDatagram(ds[i]);
      }
      assert ds[|ds|..] == [];
    }

    method DrainSocket(batches: seq<W.Receive>)
      requires Valid()
      modifies this, encoder, encoder.buf
      ensures Valid()
      ensures Model() == W.Drain(config, world, old(Model()), batches, W.MAX_BATCHES_PER_POLL)
    {
      hide W.TakeDatagrams, E.Encoder.Open, Core;
      var i := 0;
      while i < W.MAX_BATCHES_PER_POLL
        invariant 0 <= i <= W.MAX_BATCHES_PER_POLL && i <= |batches|
        invariant Valid()
        invariant W.Drain(config, world, Model(), batches[i..], W.MAX_BATCHES_PER_POLL - i) ==
                  W.Drain(config, world, old(Model()), batches, W.MAX_BATCHES_PER_POLL)
      {
        if i == |batches| || batches[i].NothingRead? {
          return;
        }
        var received := batches[i].datagrams;
        if |received| == 0 {
          return;
        }
        assert batches[i..][1..] == batches[i + 1..];
        OnBatch(received);
        if |received| < W.RECV_BATCH_SIZE {
          return;
        }
        i := i + 1;
      }
    }

    /** The loop body up to `poll`. */
    method CheckTimers()
      requires Valid()
      modifies this, encoder, encoder.buf
      ensures Valid()
      ensures Model() == W.BeforePoll(config, world, old(Model()))
    {
      hide W.Flush, E.Encoder.Open, Exportable;
      var now := Now();
      if now >= lastTemplateTime + config.interval {
        includeTemplate := true;
      }
      if includeTemplate && !messageActive {
        encoder.BeginMessage(true);
        OpenIsSized();
        FlushMessage(W.TemplateDue);
      }
    }

    method RunWorker(polls: seq<W.Poll>) returns (status: W.Status)
      requires Valid()
      modifies this, encoder, encoder.buf
      ensures Core()
      ensures status == W.StatusOf(polls)
      ensures Model() == W.Run(config, world, old(Model()), polls)
    {
      hide W.Flush, W.BeforePoll, W.Drain, E.Encoder.Open, Exportable;
      var i := 0;
      while i < |polls|
        invariant 0 <= i <= |polls| && Valid()
        invariant W.StatusOf(polls[i..]) == W.StatusOf(polls)
        invariant W.Run(config, world, Model(), polls[i..]) == W.Run(config, world, old(Model()), polls)
      {
        assert polls[i..][1..] == polls[i + 1..];
        CheckTimers();
        var p := polls[i];
        if p.PollFailed? || p.SignalReadFailed? {
          return W.Failed;
        }
        if p.Polled? {
          if p.signals != [] {
            if messageActive {
              FlushMessage(W.ShuttingDown);
            }
            return W.ShutDown;
          }
          if !p.ready {
            if messageActive {
              FlushMessage(W.FlushTimeout);
              messageActive := false;
            }
          } else {
            DrainSocket(p.batches);
          }
        }
        i := i + 1;
      }
      return W.Running;
    }
  }
}
