/**
 * The daemon's supervisor as a small-step machine: fork, watch, reap, forward shutdown, back off. The kernel's
 * answers and the clock are arguments, one `Turn` per pass through whichever loop is running.
 */
module Supervisor {
  import opened Bytes

  /** Durations and instants are in nanoseconds. */
  const SECOND: nat := 1_000_000_000
  const WORKER_STOP_GRACE: nat := 10 * SECOND
  const RESTART_BACKOFF_MIN: nat := SECOND
  const RESTART_BACKOFF_MAX: nat := 60 * SECOND
  const HEALTHY_RUNTIME: nat := 60 * SECOND
  const SIGCHLD: int := 17
  const I32_MAX: nat := 0x7FFF_FFFF

  // ---- Pure helpers ----

  /** The timeout `poll` gets for a deadline: whole milliseconds left, none when it has passed, capped at an i32. */
  function MsUntil(deadline: nat, now: nat): nat {
    var millis := (if now < deadline then deadline - now else 0) / 1_000_000;
    if millis <= I32_MAX then millis else I32_MAX
  }

  /** A timeout fits `poll`, never overshoots the deadline, and undershoots it by less than a millisecond unless clamped. */
  lemma TimeoutNeverOvershoots(deadline: nat, now: nat)
    ensures 0 <= MsUntil(deadline, now) <= I32_MAX
    ensures now + MsUntil(deadline, now) * 1_000_000 <= if now < deadline then deadline else now
    ensures MsUntil(deadline, now) < I32_MAX ==> deadline < now + (MsUntil(deadline, now) + 1) * 1_000_000
  {
  }

  /** WIFEXITED, WEXITSTATUS and WIFSIGNALED on a wait status. */
  function TermSignal(status: int): nat { status % 0x80 }

  function ExitCode(status: int): nat { (status / 0x100) % 0x100 }

  predicate ShouldRestart(status: int) {
    if TermSignal(status) == 0 then ExitCode(status) != 0 else TermSignal(status) != 0x7F
  }

  /** Restart after a non-zero exit or a fatal signal, with or without a core dump; never after a clean exit or a stop. */
  lemma RestartExactlyAfterFailure(code: nat, signal: nat, core: bool)
    requires code < 0x100 && 1 <= signal <= 126
    ensures ShouldRestart(code * 0x100) <==> code != 0
    ensures ShouldRestart(signal + if core then 0x80 else 0)
    ensures !ShouldRestart(0x7F + signal * 0x100)
  {
  }

  predicate HasShutdown(signals: seq<int>) {
    exists i :: 0 <= i < |signals| && signals[i] != SIGCHLD
  }

  // ---- The machine ----

  datatype Reap = StillRunning | Reaped(status: int) | WaitFailed

  datatype Poll = Interrupted | PollFailed | ReadFailed | TimedOut | Readable(signals: seq<int>)

  /** What the outside world answers during one pass. */
  datatype Turn = Turn(fork: Option<nat>, reap: Reap, poll: Poll, now: nat, later: nat)

  datatype Outcome = ShutdownDone | CleanExit | OsError

  datatype Phase =
    | Forking
    | Watching(pid: nat, started: nat, shuttingDown: bool, killDeadline: Option<nat>)
    | Exited(status: int, since: nat)
    | Waiting(deadline: nat)
    | Stopped(outcome: Outcome)

  /**
   * What the supervisor does to the outside world, and what it learns from it, with the clock readings it acts
   * on. `Delayed` is the decision to restart after `delay`: the worker's run time was taken at `checked` and the
   * pause is measured from `from`.
   */
  datatype Action =
    | Forked(pid: nat, at: nat)
    | ReapedChild(pid: nat, status: int)
    | SentTerm(pid: nat, at: nat)
    | SentKill(pid: nat, at: nat)
    | ShutdownRead
    | Delayed(delay: nat, checked: nat, from: nat)

  datatype State = State(phase: Phase, backoff: nat, trace: seq<Action>)

  const INITIAL: State := State(Forking, RESTART_BACKOFF_MIN, [])

  function Do(s: State, phase: Phase, action: Action): State {
    s.(phase := phase, trace := s.trace + [action])
  }

  /** A pass of the watch loop that did not reap. */
  function OnWatchPoll(s: State, t: Turn): State
    requires s.phase.Watching?
  {
    var p := s.phase;
    match t.poll
    case Interrupted => s
    case PollFailed => s.(phase := Stopped(OsError))
    case ReadFailed => s.(phase := Stopped(OsError))
    case Readable(signals) =>
      if !HasShutdown(signals) then s
      else
        var read := Do(s, p, ShutdownRead);
        if p.shuttingDown then read
        else Do(read, p.(shuttingDown := true, killDeadline := Some(t.now + WORKER_STOP_GRACE)), SentTerm(p.pid, t.now))
    case TimedOut =>
      if p.killDeadline.Some? && t.now >= p.killDeadline.value
      then Do(s, p.(killDeadline := None), SentKill(p.pid, t.now))
      else s
  }

  function OnWatch(s: State, t: Turn): State
    requires s.phase.Watching?
  {
    match t.reap
    case WaitFailed => s.(phase := Stopped(OsError))
    case Reaped(status) =>
      Do(s, if s.phase.shuttingDown then Stopped(ShutdownDone) else Exited(status, s.phase.started), ReapedChild(s.phase.pid, status))
    case StillRunning => OnWatchPoll(s, t)
  }

  function Elapsed(now: nat, since: nat): nat {
    if since <= now then now - since else 0
  }

  /** Restart or not, and after how long. */
  function OnExit(s: State, t: Turn): State
    requires s.phase.Exited?
  {
    if !ShouldRestart(s.phase.status) then s.(phase := Stopped(CleanExit))
    else
      var ran := Elapsed(t.now, s.phase.since);
      var backoff := if ran >= HEALTHY_RUNTIME then RESTART_BACKOFF_MIN else s.backoff;
      Do(s, Waiting(t.later + backoff), Delayed(backoff, t.now, t.later)).(backoff := backoff)
  }

  function Doubled(backoff: nat): nat {
    if backoff * 2 <= RESTART_BACKOFF_MAX then backoff * 2 else RESTART_BACKOFF_MAX
  }

  function OnWait(s: State, t: Turn): State
    requires s.phase.Waiting?
  {
    if t.now >= s.phase.deadline then s.(phase := Forking, backoff := Doubled(s.backoff))
    else
      match t.poll
      case Interrupted => s
      case TimedOut => s
      case PollFailed => s.(phase := Stopped(OsError))
      case ReadFailed => s.(phase := Stopped(OsError))
      case Readable(signals) => if HasShutdown(signals) then Do(s, Stopped(ShutdownDone), ShutdownRead) else s
  }

  function OnFork(s: State, t: Turn): State {
    match t.fork
    case None => s.(phase := Stopped(OsError))
    case Some(pid) => Do(s, Watching(pid, t.now, false, None), Forked(pid, t.now))
  }

  function Step(s: State, t: Turn): State {
    match s.phase
    case Forking => OnFork(s, t)
    case Watching(_, _, _, _) => OnWatch(s, t)
    case Exited(_, _) => OnExit(s, t)
    case Waiting(_) => OnWait(s, t)
    case Stopped(_) => s
  }

  function Run(s: State, turns: seq<Turn>): State
    decreases |turns|
  {
    if turns == [] then s else Run(Step(s, turns[0]), turns[1..])
  }

  // ---- The safety monitor ----

  /** What an observer of the trace knows: the unreaped worker, when it was told to stop, whether it was killed. */
  datatype Monitor = Monitor(live: Option<nat>, termAt: Option<nat>, killed: bool, shutdown: bool)

  /** The next action, if it is allowed. */
  function Observe(m: Monitor, a: Action): Option<Monitor> {
    match a
    case Forked(pid, _) =>
      if m.live.None? && !m.shutdown then Some(Monitor(Some(pid), None, false, false)) else None
    case ReapedChild(pid, _) =>
      if m.live == Some(pid) then Some(Monitor(None, None, false, m.shutdown)) else None
    case ShutdownRead =>
      Some(m.(shutdown := true))
    case SentTerm(pid, at) =>
      if m.live == Some(pid) && m.shutdown && m.termAt.None? then Some(m.(termAt := Some(at))) else None
    case SentKill(pid, at) =>
      if m.live == Some(pid) && m.termAt.Some? && !m.killed && at >= m.termAt.value + WORKER_STOP_GRACE
      then Some(m.(killed := true))
      else None
    case Delayed(_, _, _) =>
      if m.live.None? && !m.shutdown then Some(m) else None
  }

  function Accept(trace: seq<Action>): Option<Monitor> {
    if trace == [] then Some(Monitor(None, None, false, false))
    else
      match Accept(trace[..|trace| - 1])
      case None => None
      case Some(m) => Observe(m, trace[|trace| - 1])
  }

  /** How the supervisor's variables follow what an observer knows. */
  predicate Follows(p: Phase, m: Monitor) {
    match p
    case Forking => m == Monitor(None, None, false, false)
    case Watching(pid, _, shuttingDown, killDeadline) =>
      && m.live == Some(pid)
      && m.shutdown == shuttingDown == m.termAt.Some?
      && (shuttingDown ==> (killDeadline.None? <==> m.killed))
      && (!shuttingDown ==> killDeadline.None? && !m.killed)
      && (killDeadline.Some? ==> killDeadline.value == m.termAt.value + WORKER_STOP_GRACE)
    case Exited(_, _) => m == Monitor(None, None, false, false)
    case Waiting(_) => m == Monitor(None, None, false, false)
    case Stopped(ShutdownDone) => m.live.None? && m.shutdown
    case Stopped(CleanExit) => m.live.None? && !m.shutdown
    case Stopped(OsError) => true
  }

  predicate Safe(s: State) {
    Accept(s.trace).Some? && Follows(s.phase, Accept(s.trace).value)
  }

  lemma AcceptOneMore(trace: seq<Action>, a: Action)
    ensures Accept(trace + [a]) == match Accept(trace) case None => None case Some(m) => Observe(m, a)
  {
    hide Observe;
    assert (trace + [a])[..|trace|] == trace;
  }

  /** An allowed action keeps the observer satisfied. */
  lemma DoIsSafe(s: State, phase: Phase, a: Action)
    requires Accept(s.trace).Some?
    requires Observe(Accept(s.trace).value, a).Some?
    requires Follows(phase, Observe(Accept(s.trace).value, a).value)
    ensures Safe(Do(s, phase, a))
    ensures Accept(Do(s, phase, a).trace) == Observe(Accept(s.trace).value, a)
  {
    hide Observe, Follows, Accept;
    AcceptOneMore(s.trace, a);
  }

  lemma WatchPollIsSafe(s: State, t: Turn)
    requires Safe(s) && s.phase.Watching?
    ensures Safe(OnWatchPoll(s, t))
  {
    hide Accept, HasShutdown;
    var p := s.phase;
    match t.poll {
      case Readable(signals) =>
        if HasShutdown(signals) {
          AcceptOneMore(s.trace, ShutdownRead);
          var read := Do(s, p, ShutdownRead);
          if !p.shuttingDown {
            DoIsSafe(read, p.(shuttingDown := true, killDeadline := Some(t.now + WORKER_STOP_GRACE)), SentTerm(p.pid, t.now));
          }
        }
      case TimedOut =>
        if p.killDeadline.Some? && t.now >= p.killDeadline.value {
          DoIsSafe(s, p.(killDeadline := None), SentKill(p.pid, t.now));
        }
      case _ =>
    }
  }

  lemma WatchIsSafe(s: State, t: Turn)
    requires Safe(s) && s.phase.Watching?
    ensures Safe(OnWatch(s, t))
  {
    hide Accept, OnWatchPoll;
    match t.reap {
      case StillRunning => WatchPollIsSafe(s, t);
      case WaitFailed =>
      case Reaped(status) =>
        DoIsSafe(s, if s.phase.shuttingDown then Stopped(ShutdownDone) else Exited(status, s.phase.started),
                 ReapedChild(s.phase.pid, status));
    }
  }

  lemma StepIsSafe(s: State, t: Turn)
    requires Safe(s)
    ensures Safe(Step(s, t))
  {
    hide Accept, OnWatch, HasShutdown, ShouldRestart;
    match s.phase {
      case Forking =>
        if t.fork.Some? {
          DoIsSafe(s, Watching(t.fork.value, t.now, false, None), Forked(t.fork.value, t.now));
        }
      case Watching(_, _, _, _) => WatchIsSafe(s, t);
      case Exited(_, since) =>
        var ran := Elapsed(t.now, since);
        var backoff := if ran >= HEALTHY_RUNTIME then RESTART_BACKOFF_MIN else s.backoff;
        DoIsSafe(s, Waiting(t.later + backoff), Delayed(backoff, t.now, t.later));
      case Waiting(_) => DoIsSafe(s, Stopped(ShutdownDone), ShutdownRead);
      case Stopped(_) =>
    }
  }

  /** Every run, whatever the kernel, the clock and the operator do, keeps the monitor satisfied. */
  lemma {:induction false} RunIsSafe(s: State, turns: seq<Turn>)
    requires Safe(s)
    ensures Safe(Run(s, turns))
    decreases |turns|
  {
    hide Step, Safe;
    if turns != [] {
      StepIsSafe(s, turns[0]);
      RunIsSafe(Step(s, turns[0]), turns[1..]);
    }
  }

  // ---- What an accepted trace says, in plain terms ----

  /** The worker forked and not yet reaped, if any. */
  function LiveChild(trace: seq<Action>): Option<nat> {
    if trace == [] then None
    else
      match trace[|trace| - 1]
      case Forked(pid, _) => Some(pid)
      case ReapedChild(_, _) => None
      case _ => LiveChild(trace[..|trace| - 1])
  }

  lemma {:induction false} AcceptedPrefix(trace: seq<Action>, n: nat)
    requires n <= |trace| && Accept(trace).Some?
    ensures Accept(trace[..n]).Some?
  {
    if n < |trace| {
      AcceptedPrefix(trace[..|trace| - 1], n);
      assert trace[..|trace| - 1][..n] == trace[..n];
    } else {
      assert trace[..n] == trace;
    }
  }

  lemma {:induction false} LiveIsLive(trace: seq<Action>)
    requires Accept(trace).Some?
    ensures Accept(trace).value.live == LiveChild(trace)
  {
    if trace != [] {
      LiveIsLive(trace[..|trace| - 1]);
    }
  }

  lemma {:induction false} ShutdownIsRemembered(trace: seq<Action>, i: nat)
    requires Accept(trace).Some? && i < |trace| && trace[i].ShutdownRead?
    ensures Accept(trace).value.shutdown
  {
    if i < |trace| - 1 {
      ShutdownIsRemembered(trace[..|trace| - 1], i);
    }
  }

  lemma {:induction false} TermIsOnRecord(trace: seq<Action>) returns (i: nat)
    requires Accept(trace).Some? && Accept(trace).value.termAt.Some?
    ensures i < |trace| && trace[i].SentTerm?
    ensures trace[i].at == Accept(trace).value.termAt.value && Some(trace[i].pid) == LiveChild(trace)
    ensures forall k :: i < k < |trace| ==> !trace[k].ReapedChild? && !trace[k].Forked?
  {
    var n := |trace| - 1;
    LiveIsLive(trace);
    if trace[n].SentTerm? {
      i := n;
      LiveIsLive(trace[..n]);
    } else {
      i := TermIsOnRecord(trace[..n]);
    }
  }

  lemma {:induction false} TermIsRemembered(trace: seq<Action>, i: nat)
    requires Accept(trace).Some? && i < |trace| && trace[i].SentTerm?
    requires forall k :: i < k < |trace| ==> !trace[k].ReapedChild?
    ensures Accept(trace).value.termAt.Some? && Accept(trace).value.live.Some?
  {
    if i < |trace| - 1 {
      TermIsRemembered(trace[..|trace| - 1], i);
    }
  }

  lemma {:induction false} KillIsRemembered(trace: seq<Action>, i: nat)
    requires Accept(trace).Some? && i < |trace| && trace[i].SentKill?
    requires forall k :: i < k < |trace| ==> !trace[k].ReapedChild?
    ensures Accept(trace).value.killed && Accept(trace).value.live.Some?
  {
    if i < |trace| - 1 {
      KillIsRemembered(trace[..|trace| - 1], i);
    }
  }

  /** What the monitor saw just before action `n`. */
  lemma Before(trace: seq<Action>, n: nat) returns (m: Monitor)
    requires Accept(trace).Some? && n < |trace|
    ensures Accept(trace[..n]) == Some(m) && m.live == LiveChild(trace[..n])
    ensures Observe(m, trace[n]).Some?
  {
    hide Observe;
    AcceptedPrefix(trace, n + 1);
    assert trace[..n + 1][..n] == trace[..n];
    m := Accept(trace[..n]).value;
    LiveIsLive(trace[..n]);
  }

  /** At most one unreaped worker: a fork finds none alive, and no fork follows a shutdown signal that was read. */
  lemma ForksAreExclusive(turns: seq<Turn>, n: nat)
    requires n < |Run(INITIAL, turns).trace| && Run(INITIAL, turns).trace[n].Forked?
    ensures var trace := Run(INITIAL, turns).trace;
            && LiveChild(trace[..n]) == None
            && forall i :: 0 <= i < n ==> !trace[i].ShutdownRead?
  {
    var trace := Run(INITIAL, turns).trace;
    RunIsSafe(INITIAL, turns);
    var m := Before(trace, n);
    forall i | 0 <= i < n
      ensures !trace[i].ShutdownRead?
    {
      if trace[i].ShutdownRead? {
        ShutdownIsRemembered(trace[..n], i);
      }
    }
  }

  /** Signals reach only the unreaped worker, and only once a shutdown signal has been read. */
  lemma SignalsReachTheLiveWorker(turns: seq<Turn>, n: nat)
    requires n < |Run(INITIAL, turns).trace|
    requires Run(INITIAL, turns).trace[n].SentTerm? || Run(INITIAL, turns).trace[n].SentKill?
    ensures var trace := Run(INITIAL, turns).trace;
            LiveChild(trace[..n]) == Some(trace[n].pid)
  {
    RunIsSafe(INITIAL, turns);
    var m := Before(Run(INITIAL, turns).trace, n);
  }

  /** Between two SIGTERMs, and between two SIGKILLs, the worker was reaped: each life sees at most one of each. */
  lemma OneTermOneKill(turns: seq<Turn>, i: nat, j: nat)
    requires i < j < |Run(INITIAL, turns).trace|
    requires var trace := Run(INITIAL, turns).trace;
             (trace[i].SentTerm? && trace[j].SentTerm?) || (trace[i].SentKill? && trace[j].SentKill?)
    ensures exists k :: i < k < j && Run(INITIAL, turns).trace[k].ReapedChild?
  {
    var trace := Run(INITIAL, turns).trace;
    RunIsSafe(INITIAL, turns);
    var m := Before(trace, j);
    if forall k :: i < k < j ==> !trace[k].ReapedChild? {
      if trace[j].SentTerm? {
        TermIsRemembered(trace[..j], i);
      } else {
        KillIsRemembered(trace[..j], i);
      }
    }
  }

  /** SIGKILL only follows a SIGTERM to the same worker by at least the grace period. */
  lemma KillWaitsForGrace(turns: seq<Turn>, n: nat) returns (i: nat)
    requires n < |Run(INITIAL, turns).trace| && Run(INITIAL, turns).trace[n].SentKill?
    ensures var trace := Run(INITIAL, turns).trace;
            && i < n && trace[i].SentTerm? && trace[i].pid == trace[n].pid
            && trace[n].at >= trace[i].at + WORKER_STOP_GRACE
            && forall k :: i < k < n ==> !trace[k].ReapedChild?
  {
    var trace := Run(INITIAL, turns).trace;
    RunIsSafe(INITIAL, turns);
    var m := Before(trace, n);
    i := TermIsOnRecord(trace[..n]);
  }

  /** A shutdown signal read while a worker is being watched has been forwarded to that worker as SIGTERM. */
  lemma ShutdownIsForwarded(turns: seq<Turn>, n: nat) returns (i: nat)
    requires Run(INITIAL, turns).phase.Watching?
    requires n < |Run(INITIAL, turns).trace| && Run(INITIAL, turns).trace[n].ShutdownRead?
    ensures var s := Run(INITIAL, turns);
            && s.phase.shuttingDown
            && i < |s.trace| && s.trace[i].SentTerm? && s.trace[i].pid == s.phase.pid
            && forall k :: i < k < |s.trace| ==> !s.trace[k].ReapedChild? && !s.trace[k].Forked?
  {
    var trace := Run(INITIAL, turns).trace;
    RunIsSafe(INITIAL, turns);
    ShutdownIsRemembered(trace, n);
    LiveIsLive(trace);
    i := TermIsOnRecord(trace);
  }

  /** A worker still running when its grace period has passed is killed at the next timeout, unless it already was. */
  lemma OverdueWorkerIsKilled(turns: seq<Turn>, i: nat, t: Turn)
    requires var s := Run(INITIAL, turns);
             && s.phase.Watching? && i < |s.trace| && s.trace[i].SentTerm?
             && (forall k :: i < k < |s.trace| ==> !s.trace[k].ReapedChild? && !s.trace[k].SentKill?)
             && t.reap.StillRunning? && t.poll.TimedOut? && t.now >= s.trace[i].at + WORKER_STOP_GRACE
    ensures var s := Run(INITIAL, turns);
            Step(s, t).trace == s.trace + [SentKill(s.phase.pid, t.now)]
  {
    var s := Run(INITIAL, turns);
    RunIsSafe(INITIAL, turns);
    hide Run;
    NotYetKilled(s.trace, i);
  }

  lemma {:induction false} NotYetKilled(trace: seq<Action>, i: nat)
    requires Accept(trace).Some? && i < |trace| && trace[i].SentTerm?
    requires forall k :: i < k < |trace| ==> !trace[k].ReapedChild? && !trace[k].SentKill?
    ensures var m := Accept(trace).value;
            m.live.Some? && m.termAt == Some(trace[i].at) && !m.killed
  {
    var n := |trace| - 1;
    if i < n {
      NotYetKilled(trace[..n], i);
    } else {
      NoTermNoKill(trace[..n]);
    }
  }

  lemma {:induction false} NoTermNoKill(trace: seq<Action>)
    requires Accept(trace).Some?
    ensures Accept(trace).value.termAt.None? ==> !Accept(trace).value.killed
    ensures Accept(trace).value.live.None? ==> Accept(trace).value.termAt.None?
  {
    if trace != [] {
      NoTermNoKill(trace[..|trace| - 1]);
    }
  }

  /** The supervisor reports a shutdown, or stops on a clean exit, only when no worker is left. */
  lemma StopsAfterReaping(turns: seq<Turn>)
    ensures var s := Run(INITIAL, turns);
            s.phase.Stopped? && !s.phase.outcome.OsError? ==> LiveChild(s.trace) == None
  {
    RunIsSafe(INITIAL, turns);
    LiveIsLive(Run(INITIAL, turns).trace);
  }
}
