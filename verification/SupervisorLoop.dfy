/** The supervisor as it is written: three loops over local flags and timers, refining the small-step machine. */
module SupervisorLoop {
  import opened Bytes
  import opened Supervisor

  /** How watching one worker ended. */
  datatype Supervision = WorkerExited(status: int) | ShutdownRequested | WatchFailed | StillWatching

  datatype Pause = Elapsed | ShutdownArrived | PauseFailed | StillPausing

  class SupervisorProcess {
    /** The world's answers, consumed one per loop pass. */
    const turns: seq<Turn>
    var pos: nat
    var backoff: nat

    /** The forks, kills, reaps and signal reads so far, and where in the code that leaves us. */
    ghost var trace: seq<Action>
    ghost var phase: Phase

    ghost function Model(): State
      reads this
    {
      State(phase, backoff, trace)
    }

    ghost predicate Valid()
      reads this
    {
      pos <= |turns|
    }

    /** Where the machine ends up if it takes all the remaining turns from here. */
    ghost function Rest(): State
      requires Valid()
      reads this
    {
      Run(Model(), turns[pos..])
    }

    constructor (world: seq<Turn>)
      ensures turns == world && pos == 0 && Valid()
      ensures Model() == INITIAL
    {
      turns, pos := world, 0;
      backoff, trace, phase := RESTART_BACKOFF_MIN, [], Forking;
    }

    /** One pass begins: the next answers are `turns[pos]`, and the machine takes one step with them. */
    lemma OneTurn()
      requires pos < |turns|
      ensures Rest() == Run(Step(Model(), turns[pos]), turns[pos + 1..])
    {
      hide Step;
      assert turns[pos..][1..] == turns[pos + 1..];
    }

    lemma NoTurnsLeft()
      requires pos == |turns|
      ensures Rest() == Model()
    {
    }

    /** Forward the first shutdown signal; later ones are only read. */
    method OnSignals(signals: seq<int>, pid: nat, now: nat, shuttingDown0: bool, killDeadline0: Option<nat>)
      returns (shuttingDown: bool, killDeadline: Option<nat>)
      modifies this`trace
      ensures !HasShutdown(signals) ==>
                trace == old(trace) && shuttingDown == shuttingDown0 && killDeadline == killDeadline0
      ensures HasShutdown(signals) && shuttingDown0 ==>
                trace == old(trace) + [ShutdownRead] && shuttingDown && killDeadline == killDeadline0
      ensures HasShutdown(signals) && !shuttingDown0 ==>
                && trace == old(trace) + [ShutdownRead] + [SentTerm(pid, now)]
                && shuttingDown && killDeadline == Some(now + WORKER_STOP_GRACE)
    {
      shuttingDown, killDeadline := shuttingDown0, killDeadline0;
      ghost var seen := false;
      for i := 0 to |signals|
        invariant seen <==> exists k :: 0 <= k < i && signals[k] != SIGCHLD
        invariant !seen ==> trace == old(trace) && shuttingDown == shuttingDown0 && killDeadline == killDeadline0
        invariant seen ==> shuttingDown
        invariant seen && shuttingDown0 ==> trace == old(trace) + [ShutdownRead] && killDeadline == killDeadline0
        invariant seen && !shuttingDown0 ==>
                    && trace == old(trace) + [ShutdownRead] + [SentTerm(pid, now)]
                    && killDeadline == Some(now + WORKER_STOP_GRACE)
      {
        if signals[i] != SIGCHLD {
          trace := if seen then trace else trace + [ShutdownRead];
          seen := true;
          if !shuttingDown {
            shuttingDown := true;
            trace := trace + [SentTerm(pid, now)];
            killDeadline := Some(now + WORKER_STOP_GRACE);
          }
        }
      }
    }

    method SuperviseChild(pid: nat, ghost started: nat) returns (r: Supervision)
      requires Valid() && phase == Watching(pid, started, false, None)
      modifies this`pos, this`trace, this`phase
      ensures Valid() && old(pos) <= pos && Rest() == old(Rest())
      ensures match r
              case WorkerExited(status) => phase == Exited(status, started)
              case ShutdownRequested => phase == Stopped(ShutdownDone)
              case WatchFailed => phase == Stopped(OsError)
              case StillWatching => pos == |turns|
    {
      hide Run, HasShutdown;
      var shuttingDown, killDeadline := false, None;
      while pos < |turns|
        invariant Valid() && phase == Watching(pid, started, shuttingDown, killDeadline)
        invariant old(pos) <= pos && Rest() == old(Rest())
        decreases |turns| - pos
      {
        OneTurn();
        var t := turns[pos];
        pos := pos + 1;
        match t.reap {
          case WaitFailed =>
            phase := Stopped(OsError);
            return WatchFailed;
          case Reaped(status) =>
            trace := trace + [ReapedChild(pid, status)];
            if shuttingDown {
              phase := Stopped(ShutdownDone);
              return ShutdownRequested;
            }
            phase := Exited(status, started);
            return WorkerExited(status);
          case StillRunning =>
        }
        match t.poll {
          case Interrupted =>
          case PollFailed =>
            phase := Stopped(OsError);
            return WatchFailed;
          case ReadFailed =>
            phase := Stopped(OsError);
            return WatchFailed;
          case Readable(signals) =>
            shuttingDown, killDeadline := OnSignals(signals, pid, t.now, shuttingDown, killDeadline);
          case TimedOut =>
            if killDeadline.Some? && t.now >= killDeadline.value {
              trace := trace + [SentKill(pid, t.now)];
              killDeadline := None;
            }
        }
        phase := Watching(pid, started, shuttingDown, killDeadline);
      }
      return StillWatching;
    }

    method WaitBeforeRestart(from: nat, delay: nat) returns (r: Pause)
      requires Valid() && phase == Waiting(from + delay)
      modifies this`pos, this`trace, this`phase, this`backoff
      ensures Valid() && old(pos) <= pos && Rest() == old(Rest())
      ensures match r
              case Elapsed => phase == Forking
              case ShutdownArrived => phase == Stopped(ShutdownDone)
              case PauseFailed => phase == Stopped(OsError)
              case StillPausing => pos == |turns|
    {
      hide Run, HasShutdown;
      var deadline := from + delay;
      while pos < |turns|
        invariant Valid() && phase == Waiting(deadline)
        invariant old(pos) <= pos && Rest() == old(Rest())
        decreases |turns| - pos
      {
        OneTurn();
        var t := turns[pos];
        pos := pos + 1;
        if t.now >= deadline {
          phase, backoff := Forking, Doubled(backoff);
          return Elapsed;
        }
        match t.poll {
          case Interrupted =>
          case TimedOut =>
          case PollFailed =>
            phase := Stopped(OsError);
            return PauseFailed;
          case ReadFailed =>
            phase := Stopped(OsError);
            return PauseFailed;
          case Readable(signals) =>
            var found := FindShutdown(signals);
            if found {
              trace := trace + [ShutdownRead];
              phase := Stopped(ShutdownDone);
              return ShutdownArrived;
            }
        }
      }
      return StillPausing;
    }

    /** `find(|sig| sig != SIGCHLD)`. */
    static method FindShutdown(signals: seq<int>) returns (found: bool)
      ensures found <==> HasShutdown(signals)
    {
      for i := 0 to |signals|
        invariant forall k :: 0 <= k < i ==> signals[k] == SIGCHLD
      {
        if signals[i] != SIGCHLD {
          return true;
        }
      }
      return false;
    }

    /** The daemon's main loop ends exactly where the machine does, on every sequence of answers. */
    method RunSupervisor()
      requires Valid() && pos == 0 && Model() == INITIAL
      modifies this
      ensures Model() == Run(INITIAL, turns)
    {
      hide Run, ShouldRestart;
      assert turns[0..] == turns;
      while pos < |turns|
        invariant Valid() && phase == Forking
        invariant Rest() == Run(INITIAL, turns)
        decreases |turns| - pos
      {
        OneTurn();
        var t := turns[pos];
        pos := pos + 1;
        if t.fork.None? {
          phase := Stopped(OsError);
          StoppedStays();
          return;
        }
        var pid, started := t.fork.value, t.now;
        trace, phase := trace + [Forked(pid, started)], Watching(pid, started, false, None);
        var watched := SuperviseChild(pid, started);
        if !watched.WorkerExited? {
          StoppedStays();
          return;
        }
        if pos == |turns| {
          NoTurnsLeft();
          return;
        }
        OneTurn();
        t := turns[pos];
        pos := pos + 1;
        if !ShouldRestart(watched.status) {
          phase := Stopped(CleanExit);
          StoppedStays();
          return;
        }
        var ran := Supervisor.Elapsed(t.now, started);
        if ran >= HEALTHY_RUNTIME {
          backoff := RESTART_BACKOFF_MIN;
        }
        trace, phase := trace + [Delayed(backoff, t.now, t.later)], Waiting(t.later + backoff);
        var paused := WaitBeforeRestart(t.later, backoff);
        if paused != Elapsed {
          StoppedStays();
          return;
        }
      }
      NoTurnsLeft();
    }

    /** A machine that has stopped, or has no turns left, is where it will end. */
    lemma StoppedStays()
      requires Valid() && (phase.Stopped? || pos == |turns|)
      ensures Rest() == Model()
    {
      StoppedIsFinal(Model(), turns[pos..]);
    }
  }

  lemma {:induction false} StoppedIsFinal(s: State, turns: seq<Turn>)
    requires s.phase.Stopped? || turns == []
    ensures Run(s, turns) == s
    decreases |turns|
  {
    if turns != [] {
      StoppedIsFinal(s, turns[1..]);
    }
  }
}
