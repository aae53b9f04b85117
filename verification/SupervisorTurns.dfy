/**
 * What the supervisor does with each answer of the kernel, from every state a run can reach, said by the signals and
 * statuses themselves and by what the trace so far shows.
 */
module SupervisorTurns {
  import opened Bytes
  import opened Supervisor
  import opened SupervisorRestart

  /** A signal other than SIGCHLD (17) is among those read. */
  predicate BringsShutdown(signals: seq<int>) {
    exists i :: 0 <= i < |signals| && signals[i] != 17
  }

  predicate ShutdownSeen(trace: seq<Action>) {
    exists i :: 0 <= i < |trace| && trace[i].ShutdownRead?
  }

  /** While a worker is watched the trace shows which one it is and whether it has been told to stop. */
  lemma WatchedIsLive(turns: seq<Turn>)
    requires Run(INITIAL, turns).phase.Watching?
    ensures var s := Run(INITIAL, turns);
            && LiveChild(s.trace) == Some(s.phase.pid)
            && (s.phase.shuttingDown <==> ShutdownSeen(s.trace))
  {
    var s := Run(INITIAL, turns);
    RunIsSafe(INITIAL, turns);
    hide Run, Observe;
    LiveIsLive(s.trace);
    if s.phase.shuttingDown {
      var i := ShutdownIsOnRecord(s.trace);
    }
    if ShutdownSeen(s.trace) {
      var i :| 0 <= i < |s.trace| && s.trace[i].ShutdownRead?;
      ShutdownIsRemembered(s.trace, i);
    }
  }

  // ---- Starting a worker ----

  /** A fork is logged with the pid and the clock reading taken before it; without one the supervisor gives up. */
  lemma ForkTurn(turns: seq<Turn>, t: Turn)
    requires Run(INITIAL, turns).phase.Forking?
    ensures var s := Run(INITIAL, turns);
            var r := Step(s, t);
            && (t.fork.None? ==> r.phase == Stopped(OsError) && r.trace == s.trace)
            && (t.fork.Some? ==> r.trace == s.trace + [Forked(t.fork.value, t.now)] && r.phase.Watching?)
  {
    hide Run;
  }

  // ---- Watching a worker ----

  lemma SameSignals(signals: seq<int>)
    ensures HasShutdown(signals) <==> BringsShutdown(signals)
  {
  }

  lemma SignalStep(s: State, t: Turn)
    requires s.phase.Watching? && t.reap.StillRunning? && t.poll.Readable?
    ensures Step(s, t).phase.Watching?
    ensures !HasShutdown(t.poll.signals) ==> Step(s, t) == s
    ensures HasShutdown(t.poll.signals) ==>
              Step(s, t).trace ==
              s.trace + [ShutdownRead] + if s.phase.shuttingDown then [] else [SentTerm(s.phase.pid, t.now)]
  {
    hide HasShutdown;
  }

  /** A shutdown signal is read, and the first one passed on to the worker as SIGTERM; SIGCHLD alone does nothing. */
  lemma SignalWhileWatching(turns: seq<Turn>, t: Turn)
    requires Run(INITIAL, turns).phase.Watching? && t.reap.StillRunning? && t.poll.Readable?
    ensures var s := Run(INITIAL, turns);
            var r := Step(s, t);
            && LiveChild(s.trace).Some?
            && (!BringsShutdown(t.poll.signals) ==> r == s)
            && (BringsShutdown(t.poll.signals) && ShutdownSeen(s.trace) ==> r.trace == s.trace + [ShutdownRead])
            && (BringsShutdown(t.poll.signals) && !ShutdownSeen(s.trace) ==>
                  r.trace == s.trace + [ShutdownRead, SentTerm(LiveChild(s.trace).value, t.now)])
            && r.phase.Watching?
  {
    WatchedIsLive(turns);
    hide *;
    var s := Run(INITIAL, turns);
    SameSignals(t.poll.signals);
    SignalStep(s, t);
    assert s.trace + [ShutdownRead] + [SentTerm(s.phase.pid, t.now)] == s.trace + [ShutdownRead, SentTerm(s.phase.pid, t.now)];
  }

  /** Nothing else that `poll` can answer is acted on, except an overdue worker and a failure. */
  lemma OtherWatchTurns(turns: seq<Turn>, t: Turn)
    requires Run(INITIAL, turns).phase.Watching?
    ensures var s := Run(INITIAL, turns);
            var r := Step(s, t);
            && (t.reap.WaitFailed? ==> r.phase == Stopped(OsError) && r.trace == s.trace)
            && (t.reap.StillRunning? && t.poll.Interrupted? ==> r == s)
            && (t.reap.StillRunning? && (t.poll.PollFailed? || t.poll.ReadFailed?) ==>
                  r.phase == Stopped(OsError) && r.trace == s.trace)
            && (t.reap.StillRunning? && t.poll.TimedOut? && !ShutdownSeen(s.trace) ==> r == s)
  {
    RunIsSafe(INITIAL, turns);
    WatchedIsLive(turns);
    hide Run, Accept, LiveChild, ShutdownSeen;
  }

  /** Between SIGTERM and the end of the ten seconds' grace, and once the worker has been killed, a timeout does nothing. */
  lemma GraceTurn(turns: seq<Turn>, i: nat, t: Turn)
    requires var s := Run(INITIAL, turns);
             && s.phase.Watching? && i < |s.trace| && s.trace[i].SentTerm?
             && (forall k :: i < k < |s.trace| ==> !s.trace[k].ReapedChild?)
    requires t.reap.StillRunning? && t.poll.TimedOut?
    ensures var s := Run(INITIAL, turns);
            && (t.now < s.trace[i].at + 10_000_000_000 ==> Step(s, t) == s)
            && ((exists k :: i < k < |s.trace| && s.trace[k].SentKill?) ==> Step(s, t) == s)
            && (t.now >= s.trace[i].at + 10_000_000_000 && (forall k :: i < k < |s.trace| ==> !s.trace[k].SentKill?) ==>
                  Step(s, t).trace == s.trace + [SentKill(s.phase.pid, t.now)] && Step(s, t).phase.Watching?)
  {
    var s := Run(INITIAL, turns);
    RunIsSafe(INITIAL, turns);
    TermIsKept(s.trace, i);
    hide Run, Accept;
    if k :| i < k < |s.trace| && s.trace[k].SentKill? {
      KillIsRemembered(s.trace, k);
    } else {
      NotYetKilled(s.trace, i);
    }
  }

  lemma {:induction false} TermIsKept(trace: seq<Action>, i: nat)
    requires Accept(trace).Some? && i < |trace| && trace[i].SentTerm?
    requires forall k :: i < k < |trace| ==> !trace[k].ReapedChild?
    ensures Accept(trace).value.termAt == Some(trace[i].at) && Accept(trace).value.live.Some?
  {
    if i < |trace| - 1 {
      TermIsKept(trace[..|trace| - 1], i);
    }
  }

  /** An exit is noticed whatever `poll` would say; after a shutdown signal it ends the supervisor. */
  lemma ReapTurn(turns: seq<Turn>, t: Turn)
    requires Run(INITIAL, turns).phase.Watching? && t.reap.Reaped?
    ensures var s := Run(INITIAL, turns);
            var r := Step(s, t);
            && LiveChild(s.trace).Some?
            && r.trace == s.trace + [ReapedChild(LiveChild(s.trace).value, t.reap.status)]
            && (ShutdownSeen(s.trace) ==> r.phase == Stopped(ShutdownDone))
            && (!ShutdownSeen(s.trace) ==> r.phase.Exited?)
  {
    WatchedIsLive(turns);
    hide Run, LiveChild, ShutdownSeen;
  }

  /**
   * An exit without a shutdown signal is acted on in the next turn. A status that calls for a restart leads to a
   * pause, of the length the crash loop calls for; any other status ends the supervisor.
   */
  lemma ExitIsActedOn(turns: seq<Turn>, t: Turn, next: Turn)
    requires Run(INITIAL, turns).phase.Watching? && t.reap.Reaped? && !ShutdownSeen(Run(INITIAL, turns).trace)
    ensures var s := Run(INITIAL, turns);
            var reaped := Step(s, t);
            var r := Step(reaped, next);
            && (!ShouldRestart(t.reap.status) ==> r.phase == Stopped(CleanExit) && r.trace == reaped.trace)
            && (ShouldRestart(t.reap.status) ==>
                  var k := if Elapsed(next.now, LastForkAt(s.trace)) >= 60_000_000_000 then 0 else Streak(s.trace);
                  && r.trace == reaped.trace + [Delayed(Delay(k), next.now, next.later)]
                  && r.phase == Waiting(next.later + Delay(k)))
  {
    WatchedIsLive(turns);
    RunKeepsBackoff(INITIAL, turns);
    FirstDelay();
    hide Run, LiveChild, ShutdownSeen, ShouldRestart, Delay, Streak, LastForkAt, DelaysAsPromised, Elapsed;
  }

  // ---- Waiting to restart ----

  /**
   * During a pause a shutdown signal ends the supervisor at once. SIGCHLD, an interruption and a timeout leave the
   * pause as it is, and a failure ends the supervisor.
   */
  lemma PauseTurn(turns: seq<Turn>, t: Turn)
    requires Run(INITIAL, turns).phase.Waiting?
    ensures var s := Run(INITIAL, turns);
            && s.trace != [] && s.trace[|s.trace| - 1].Delayed?
            && (t.now < s.trace[|s.trace| - 1].from + s.trace[|s.trace| - 1].delay ==>
                  var r := Step(s, t);
                  && (t.poll.Readable? && BringsShutdown(t.poll.signals) ==>
                        r.phase == Stopped(ShutdownDone) && r.trace == s.trace + [ShutdownRead])
                  && (t.poll.Readable? && !BringsShutdown(t.poll.signals) ==> r == s)
                  && (t.poll.Interrupted? || t.poll.TimedOut? ==> r == s)
                  && (t.poll.PollFailed? || t.poll.ReadFailed? ==> r.phase == Stopped(OsError) && r.trace == s.trace))
  {
    RunIsOrderly(INITIAL, turns);
    hide Run, ShouldRestart, ForkOk, DecisionOk, Doubled;
  }
}
