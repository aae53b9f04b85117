/** When the supervisor restarts a worker, after how long, and when it gives up: theorems about whole runs. */
module SupervisorRestart {
  import opened Bytes
  import opened Supervisor

  // ---- Backoff ----

  function Pow2(k: nat): nat {
    if k == 0 then 1 else 2 * Pow2(k - 1)
  }

  /** min(2^k, 60) seconds. */
  function Delay(k: nat): nat {
    if Pow2(k) <= 60 then Pow2(k) * SECOND else RESTART_BACKOFF_MAX
  }

  lemma DelayDoubles(k: nat)
    ensures Doubled(Delay(k)) == Delay(k + 1)
  {
  }

  /** When the latest worker was started. */
  function LastForkAt(trace: seq<Action>): nat {
    if trace == [] then 0
    else if trace[|trace| - 1].Forked? then trace[|trace| - 1].at
    else LastForkAt(trace[..|trace| - 1])
  }

  /** Failures in the current crash loop: since the last worker that had stayed up, that one included. */
  function Streak(trace: seq<Action>): nat {
    if trace == [] then 0
    else
      var before := trace[..|trace| - 1];
      match trace[|trace| - 1]
      case Delayed(_, checked, _) =>
        if Elapsed(checked, LastForkAt(before)) >= HEALTHY_RUNTIME then 1 else Streak(before) + 1
      case _ => Streak(before)
  }

  /** A delay is the one its place in the crash loop calls for. */
  ghost predicate DelayOk(trace: seq<Action>, i: nat)
    requires i < |trace|
  {
    trace[i].Delayed? ==> Streak(trace[..i + 1]) > 0 && trace[i].delay == Delay(Streak(trace[..i + 1]) - 1)
  }

  ghost predicate DelaysAsPromised(trace: seq<Action>) {
    forall i :: 0 <= i < |trace| ==> DelayOk(trace, i)
  }

  ghost predicate BackoffOk(s: State) {
    && DelaysAsPromised(s.trace)
    && (s.phase.Waiting? ==> Streak(s.trace) > 0 && s.backoff == Delay(Streak(s.trace) - 1))
    && (s.phase.Forking? || s.phase.Watching? || s.phase.Exited? ==> s.backoff == Delay(Streak(s.trace)))
    && (s.phase.Watching? ==> s.phase.started == LastForkAt(s.trace))
    && (s.phase.Exited? ==> s.phase.since == LastForkAt(s.trace))
  }

  lemma EarlierDelaysStand(trace: seq<Action>, a: Action)
    requires DelaysAsPromised(trace)
    ensures forall i :: 0 <= i < |trace| ==> DelayOk(trace + [a], i)
  {
    hide Delay, Streak;
    forall i | 0 <= i < |trace|
      ensures DelayOk(trace + [a], i)
    {
      assert (trace + [a])[..i + 1] == trace[..i + 1];
      assert DelayOk(trace, i);
    }
  }

  lemma PlainActionKeepsDelays(trace: seq<Action>, a: Action)
    requires DelaysAsPromised(trace) && !a.Delayed?
    ensures DelaysAsPromised(trace + [a]) && Streak(trace + [a]) == Streak(trace)
    ensures LastForkAt(trace + [a]) == if a.Forked? then a.at else LastForkAt(trace)
  {
    hide Delay;
    assert (trace + [a])[..|trace|] == trace;
    EarlierDelaysStand(trace, a);
  }

  lemma DelayedKeepsDelays(trace: seq<Action>, delay: nat, checked: nat, from: nat)
    requires DelaysAsPromised(trace)
    requires delay == if Elapsed(checked, LastForkAt(trace)) >= HEALTHY_RUNTIME then Delay(0) else Delay(Streak(trace))
    ensures var next := trace + [Delayed(delay, checked, from)];
            DelaysAsPromised(next) && Streak(next) > 0 && delay == Delay(Streak(next) - 1)
  {
    hide Delay;
    var next := trace + [Delayed(delay, checked, from)];
    assert next[..|trace|] == trace && next[..|trace| + 1] == next;
    EarlierDelaysStand(trace, Delayed(delay, checked, from));
  }

  lemma StepKeepsBackoff(s: State, t: Turn)
    requires BackoffOk(s)
    ensures BackoffOk(Step(s, t))
  {
    hide Delay, Streak, LastForkAt, DelaysAsPromised, Doubled, HasShutdown, ShouldRestart, Elapsed;
    forall a: Action | !a.Delayed?
      ensures DelaysAsPromised(s.trace + [a]) && Streak(s.trace + [a]) == Streak(s.trace)
      ensures LastForkAt(s.trace + [a]) == if a.Forked? then a.at else LastForkAt(s.trace)
    {
      PlainActionKeepsDelays(s.trace, a);
    }
    match s.phase {
      case Watching(pid, _, _, _) => PlainActionKeepsDelays(s.trace + [ShutdownRead], SentTerm(pid, t.now));
      case Exited(_, since) =>
        FirstDelay();
        var healthy := Elapsed(t.now, since) >= HEALTHY_RUNTIME;
        DelayedKeepsDelays(s.trace, if healthy then RESTART_BACKOFF_MIN else s.backoff, t.now, t.later);
      case Waiting(_) => DelayDoubles(Streak(s.trace) - 1);
      case _ =>
    }
  }

  lemma FirstDelay()
    ensures Delay(0) == RESTART_BACKOFF_MIN
  {
  }

  lemma {:induction false} RunKeepsBackoff(s: State, turns: seq<Turn>)
    requires BackoffOk(s)
    ensures BackoffOk(Run(s, turns))
    decreases |turns|
  {
    hide Step, BackoffOk;
    if turns != [] {
      StepKeepsBackoff(s, turns[0]);
      RunKeepsBackoff(Step(s, turns[0]), turns[1..]);
    }
  }

  /**
   * The delay decided on after the k-th further short-lived failure of a crash loop is min(2^k, 60) seconds, for
   * every k and every run; a worker that stayed up, from its fork to the check, starts again at k = 0.
   */
  lemma BackoffSchedule(turns: seq<Turn>)
    ensures DelaysAsPromised(Run(INITIAL, turns).trace)
  {
    hide Run;
    RunKeepsBackoff(INITIAL, turns);
  }

  // ---- Restarts ----

  /** The status of the latest worker to be reaped. */
  function LastStatus(trace: seq<Action>): Option<int> {
    if trace == [] then None
    else if trace[|trace| - 1].ReapedChild? then Some(trace[|trace| - 1].status)
    else LastStatus(trace[..|trace| - 1])
  }

  /** The trace ends with a failed worker being reaped and the decision to restart it. */
  predicate RestartDecided(trace: seq<Action>) {
    var n := |trace|;
    && n >= 2 && trace[n - 1].Delayed?
    && trace[n - 2].ReapedChild? && ShouldRestart(trace[n - 2].status)
  }

  ghost predicate ForkOk(trace: seq<Action>, n: nat)
    requires n < |trace|
  {
    trace[n].Forked? ==> n == 0 || RestartDecided(trace[..n])
  }

  ghost predicate DecisionOk(trace: seq<Action>, n: nat)
    requires n < |trace|
  {
    trace[n].Delayed? ==> RestartDecided(trace[..n + 1])
  }

  /** Nothing is outstanding: the latest reaped worker, if any, had failed. */
  predicate NoCleanExit(trace: seq<Action>) {
    LastStatus(trace).Some? ==> ShouldRestart(LastStatus(trace).value)
  }

  predicate EndsAsPhaseSays(s: State) {
    match s.phase
    case Forking => s.trace == [] || RestartDecided(s.trace)
    case Waiting(deadline) =>
      && RestartDecided(s.trace)
      && deadline == s.trace[|s.trace| - 1].from + s.trace[|s.trace| - 1].delay
    case Exited(status, _) => s.trace != [] && s.trace[|s.trace| - 1].ReapedChild? && s.trace[|s.trace| - 1].status == status
    case Watching(_, _, _, _) => NoCleanExit(s.trace)
    case Stopped(ShutdownDone) => true
    case Stopped(CleanExit) => LastStatus(s.trace).Some? && !ShouldRestart(LastStatus(s.trace).value)
    case Stopped(OsError) => NoCleanExit(s.trace)
  }

  ghost predicate Orderly(s: State) {
    && (forall n :: 0 <= n < |s.trace| ==> ForkOk(s.trace, n) && DecisionOk(s.trace, n))
    && EndsAsPhaseSays(s)
  }

  lemma DecidedMeansFailed(trace: seq<Action>)
    requires RestartDecided(trace)
    ensures NoCleanExit(trace)
  {
    hide ShouldRestart;
    var reaped := trace[..|trace| - 1];
    assert LastStatus(trace) == LastStatus(reaped);
    assert reaped[|reaped| - 1].ReapedChild?;
  }

  lemma LastStatusOfOneMore(trace: seq<Action>, a: Action)
    ensures LastStatus(trace + [a]) == if a.ReapedChild? then Some(a.status) else LastStatus(trace)
  {
    assert (trace + [a])[..|trace|] == trace;
  }

  /** One more action keeps the order if a fork follows a decision and a decision a failed worker's reaping. */
  lemma DoIsOrderly(s: State, phase: Phase, a: Action)
    requires Orderly(s)
    requires a.Forked? ==> s.trace == [] || RestartDecided(s.trace)
    requires a.Delayed? ==> RestartDecided(s.trace + [a])
    requires EndsAsPhaseSays(Do(s, phase, a))
    ensures Orderly(Do(s, phase, a))
  {
    hide RestartDecided, EndsAsPhaseSays;
    var next := s.trace + [a];
    forall n | 0 <= n < |next|
      ensures ForkOk(next, n) && DecisionOk(next, n)
    {
      if n < |s.trace| {
        assert next[..n] == s.trace[..n] && next[..n + 1] == s.trace[..n + 1];
        assert ForkOk(s.trace, n) && DecisionOk(s.trace, n);
      } else {
        assert next[..n] == s.trace && next[..n + 1] == next;
      }
    }
  }

  lemma WatchIsOrderly(s: State, t: Turn)
    requires Orderly(s) && s.phase.Watching?
    ensures Orderly(OnWatch(s, t))
  {
    hide ShouldRestart, HasShutdown, LastStatus, RestartDecided;
    var p := s.phase;
    match (t.reap, t.poll) {
      case (Reaped(status), _) =>
        var a := ReapedChild(p.pid, status);
        LastStatusOfOneMore(s.trace, a);
        DoIsOrderly(s, if p.shuttingDown then Stopped(ShutdownDone) else Exited(status, p.started), a);
      case (StillRunning, Readable(signals)) =>
        LastStatusOfOneMore(s.trace, ShutdownRead);
        DoIsOrderly(s, p, ShutdownRead);
        var term := SentTerm(p.pid, t.now);
        LastStatusOfOneMore(s.trace + [ShutdownRead], term);
        DoIsOrderly(Do(s, p, ShutdownRead), p.(shuttingDown := true, killDeadline := Some(t.now + WORKER_STOP_GRACE)), term);
      case (StillRunning, TimedOut) =>
        var kill := SentKill(p.pid, t.now);
        LastStatusOfOneMore(s.trace, kill);
        DoIsOrderly(s, p.(killDeadline := None), kill);
      case _ =>
    }
  }

  lemma StepIsOrderly(s: State, t: Turn)
    requires Orderly(s)
    ensures Orderly(Step(s, t))
  {
    hide ShouldRestart, HasShutdown, OnWatch, Doubled, Elapsed;
    match s.phase {
      case Watching(_, _, _, _) => WatchIsOrderly(s, t);
      case Forking =>
        if s.trace != [] {
          DecidedMeansFailed(s.trace);
        }
        if t.fork.Some? {
          var a := Forked(t.fork.value, t.now);
          LastStatusOfOneMore(s.trace, a);
          DoIsOrderly(s, Watching(t.fork.value, t.now, false, None), a);
        }
      case Exited(status, since) =>
        if ShouldRestart(status) {
          var backoff := if Elapsed(t.now, since) >= HEALTHY_RUNTIME then RESTART_BACKOFF_MIN else s.backoff;
          DoIsOrderly(s, Waiting(t.later + backoff), Delayed(backoff, t.now, t.later));
        }
      case Waiting(_) =>
        DecidedMeansFailed(s.trace);
        DoIsOrderly(s, Stopped(ShutdownDone), ShutdownRead);
      case Stopped(_) =>
    }
  }

  lemma {:induction false} RunIsOrderly(s: State, turns: seq<Turn>)
    requires Orderly(s)
    ensures Orderly(Run(s, turns))
    decreases |turns|
  {
    hide Step, Orderly;
    if turns != [] {
      StepIsOrderly(s, turns[0]);
      RunIsOrderly(Step(s, turns[0]), turns[1..]);
    }
  }

  /**
   * Over every run, every fork but the first comes straight after one restart decision, and that straight after
   * the reaping of a worker whose status calls for a restart.
   */
  lemma RestartsFollowFailures(turns: seq<Turn>, n: nat)
    requires 0 < n < |Run(INITIAL, turns).trace| && Run(INITIAL, turns).trace[n].Forked?
    ensures var trace := Run(INITIAL, turns).trace;
            && n >= 2
            && trace[n - 1].Delayed?
            && trace[n - 2].ReapedChild? && ShouldRestart(trace[n - 2].status)
  {
    hide Run, ShouldRestart;
    var trace := Run(INITIAL, turns).trace;
    RunIsOrderly(INITIAL, turns);
    assert ForkOk(trace, n);
  }

  /**
   * Over every run, the supervisor has stopped on a clean exit exactly when no shutdown signal was read and the
   * latest worker reaped does not call for a restart, once it has acted on that worker's exit.
   */
  lemma CleanExitExactlyWhen(turns: seq<Turn>)
    ensures var s := Run(INITIAL, turns);
            !s.phase.Exited? ==>
              (s.phase == Stopped(CleanExit) <==>
               && (forall i :: 0 <= i < |s.trace| ==> !s.trace[i].ShutdownRead?)
               && LastStatus(s.trace).Some? && !ShouldRestart(LastStatus(s.trace).value))
  {
    var s := Run(INITIAL, turns);
    RunIsOrderly(INITIAL, turns);
    RunIsSafe(INITIAL, turns);
    hide Run, ShouldRestart;
    if (s.phase.Forking? && s.trace != []) || s.phase.Waiting? {
      DecidedMeansFailed(s.trace);
    }
    if s.phase == Stopped(ShutdownDone) {
      var i := ShutdownIsOnRecord(s.trace);
    }
    if s.phase == Stopped(CleanExit) {
      forall i | 0 <= i < |s.trace|
        ensures !s.trace[i].ShutdownRead?
      {
        if s.trace[i].ShutdownRead? {
          ShutdownIsRemembered(s.trace, i);
        }
      }
    }
  }

  lemma {:induction false} ShutdownIsOnRecord(trace: seq<Action>) returns (i: nat)
    requires Accept(trace).Some? && Accept(trace).value.shutdown
    ensures i < |trace| && trace[i].ShutdownRead?
  {
    var n := |trace| - 1;
    if trace[n].ShutdownRead? {
      i := n;
    } else {
      i := ShutdownIsOnRecord(trace[..n]);
    }
  }

  // ---- Pauses ----

  /** `Instant::now` never goes backwards from one pass to the next. */
  ghost predicate ClockIsMonotone(turns: seq<Turn>) {
    forall i, j :: 0 <= i < j < |turns| ==> turns[i].now <= turns[j].now
  }

  ghost predicate PauseOk(trace: seq<Action>, n: nat)
    requires n < |trace|
  {
    n > 0 && trace[n].Forked? && trace[n - 1].Delayed? ==> trace[n].at >= trace[n - 1].from + trace[n - 1].delay
  }

  /** Every pause has been waited out, the latest one no later than `clock`. */
  ghost predicate Paced(s: State, clock: nat) {
    && (forall n :: 0 <= n < |s.trace| ==> PauseOk(s.trace, n))
    && (s.phase.Forking? && s.trace != [] && s.trace[|s.trace| - 1].Delayed? ==>
          s.trace[|s.trace| - 1].from + s.trace[|s.trace| - 1].delay <= clock)
  }

  lemma DoIsPaced(s: State, phase: Phase, a: Action, clock: nat)
    requires Paced(s, clock)
    requires a.Forked? && s.trace != [] && s.trace[|s.trace| - 1].Delayed? ==>
               a.at >= s.trace[|s.trace| - 1].from + s.trace[|s.trace| - 1].delay
    requires !phase.Forking?
    ensures Paced(Do(s, phase, a), clock)
  {
    var next := s.trace + [a];
    forall n | 0 <= n < |next|
      ensures PauseOk(next, n)
    {
      assert n < |s.trace| ==> PauseOk(s.trace, n);
    }
  }

  lemma StepIsPaced(s: State, t: Turn, clock: nat)
    requires Orderly(s) && Paced(s, clock) && clock <= t.now
    ensures Paced(Step(s, t), t.now)
  {
    hide ShouldRestart, HasShutdown, Doubled, Elapsed, DecisionOk, ForkOk, NoCleanExit, PauseOk;
    match s.phase {
      case Forking =>
        if t.fork.Some? {
          DoIsPaced(s, Watching(t.fork.value, t.now, false, None), Forked(t.fork.value, t.now), t.now);
        }
      case Watching(pid, started, shuttingDown, _) =>
        WatchIsPaced(s, t);
      case Exited(_, since) =>
        var backoff := if Elapsed(t.now, since) >= HEALTHY_RUNTIME then RESTART_BACKOFF_MIN else s.backoff;
        DoIsPaced(s, Waiting(t.later + backoff), Delayed(backoff, t.now, t.later), t.now);
      case Waiting(_) => DoIsPaced(s, Stopped(ShutdownDone), ShutdownRead, t.now);
      case Stopped(_) =>
    }
  }

  lemma WatchIsPaced(s: State, t: Turn)
    requires Paced(s, t.now) && s.phase.Watching?
    ensures Paced(OnWatch(s, t), t.now)
  {
    hide HasShutdown, PauseOk;
    var p := s.phase;
    match (t.reap, t.poll) {
      case (Reaped(status), _) =>
        DoIsPaced(s, if p.shuttingDown then Stopped(ShutdownDone) else Exited(status, p.started), ReapedChild(p.pid, status), t.now);
      case (StillRunning, Readable(signals)) =>
        DoIsPaced(s, p, ShutdownRead, t.now);
        DoIsPaced(Do(s, p, ShutdownRead), p.(shuttingDown := true, killDeadline := Some(t.now + WORKER_STOP_GRACE)),
                  SentTerm(p.pid, t.now), t.now);
      case (StillRunning, TimedOut) => DoIsPaced(s, p.(killDeadline := None), SentKill(p.pid, t.now), t.now);
      case _ =>
    }
  }

  lemma {:induction false} RunIsPaced(s: State, turns: seq<Turn>, clock: nat) returns (end: nat)
    requires Orderly(s) && Paced(s, clock)
    requires ClockIsMonotone(turns) && (turns != [] ==> clock <= turns[0].now)
    ensures Paced(Run(s, turns), end)
    decreases |turns|
  {
    hide Step, Orderly, Paced;
    if turns == [] {
      end := clock;
    } else {
      StepIsOrderly(s, turns[0]);
      StepIsPaced(s, turns[0], clock);
      end := RunIsPaced(Step(s, turns[0]), turns[1..], turns[0].now);
    }
  }

  /**
   * On a clock that never goes backwards, the restart after the k-th further short-lived failure of a crash loop
   * comes at least min(2^k, 60) seconds after the instant the pause is measured from.
   */
  lemma RestartsWaitOutTheBackoff(turns: seq<Turn>, n: nat)
    requires ClockIsMonotone(turns)
    requires 0 < n < |Run(INITIAL, turns).trace| && Run(INITIAL, turns).trace[n].Forked?
    ensures var trace := Run(INITIAL, turns).trace;
            && trace[n - 1].Delayed? && Streak(trace[..n]) > 0
            && trace[n].at >= trace[n - 1].from + Delay(Streak(trace[..n]) - 1)
  {
    hide Run, Delay, Streak;
    var trace := Run(INITIAL, turns).trace;
    var end := RunIsPaced(INITIAL, turns, 0);
    BackoffSchedule(turns);
    RestartsFollowFailures(turns, n);
    assert DelayOk(trace, n - 1) && PauseOk(trace, n);
  }

  /** A pause ends: the first pass at or past the promised instant leaves it, and the next one forks. */
  lemma PauseEnds(turns: seq<Turn>, t: Turn, next: Turn)
    requires Run(INITIAL, turns).phase.Waiting? && next.fork.Some?
    ensures var s := Run(INITIAL, turns);
            && s.trace != [] && s.trace[|s.trace| - 1].Delayed?
            && (t.now >= s.trace[|s.trace| - 1].from + s.trace[|s.trace| - 1].delay ==>
                  Step(Step(s, t), next).trace == s.trace + [Forked(next.fork.value, next.now)])
  {
    hide Run, ShouldRestart;
    RunIsOrderly(INITIAL, turns);
  }
}
