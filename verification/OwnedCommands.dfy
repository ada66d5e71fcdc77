/**
 The process-group ownership of tests/integration/process.rs: a keeper process pins the group id, so that the group can
 be killed by number without ever hitting a stranger, and each child is waited for at most once.
 */
module OwnedCommands {
  import opened Wrappers

  datatype Who = Keeper | Command

  /** What `waitid` with WNOWAIT says; `NotAChild` is ECHILD, the identity lost. */
  datatype Liveness = Running | Exited | NotAChild | ProbeFailed

  datatype Event =
    Spawned(who: Who) | Probed(who: Who, liveness: Liveness) | Signalled(ok: bool)
    | Waited(who: Who, status: Option<int>)

  datatype Ownership = Pinned | Signaled | Reaped | Lost

  datatype Failure =
    BadDeadline | SpawnFailed | TimedOut | NotPinned | KeeperExited | ProbeError | NoCommand | SignalError | WaitError
    | CaptureError | IdentityLost

  datatype CapturePoll = Pending | Finished | Broken

  /** The operating system: any answer to any call. */
  class Os {
    const spawns: nat -> bool
    const livenesses: nat -> Liveness
    const kills: nat -> bool
    const statuses: nat -> Option<int>
    const captures: nat -> CapturePoll
    const delays: nat -> nat
    var calls: nat
    var now: nat
    ghost var log: seq<Event>

    constructor (spawns: nat -> bool, livenesses: nat -> Liveness, kills: nat -> bool, statuses: nat -> Option<int>,
                 captures: nat -> CapturePoll, delays: nat -> nat)
      ensures log == [] && calls == 0 && now == 0
      ensures this.spawns == spawns && this.livenesses == livenesses && this.kills == kills
      ensures this.statuses == statuses && this.captures == captures && this.delays == delays
    {
      this.spawns, this.livenesses, this.kills, this.statuses := spawns, livenesses, kills, statuses;
      this.captures, this.delays := captures, delays;
      calls, now, log := 0, 0, [];
    }

    method Spawn(who: Who) returns (ok: bool)
      modifies this
      ensures ok == spawns(old(calls)) && calls == old(calls) + 1
      ensures now == old(now) && log == old(log) + if ok then [Spawned(who)] else []
    {
      ok := spawns(calls);
      calls := calls + 1;
      log := log + if ok then [Spawned(who)] else [];
    }

    method ChildExited(who: Who) returns (liveness: Liveness)
      modifies this
      ensures liveness == livenesses(old(calls)) && calls == old(calls) + 1
      ensures now == old(now) && log == old(log) + [Probed(who, liveness)]
    {
      liveness := livenesses(calls);
      calls := calls + 1;
      log := log + [Probed(who, liveness)];
    }

    method KillGroup() returns (ok: bool)
      modifies this
      ensures ok == kills(old(calls)) && calls == old(calls) + 1
      ensures now == old(now) && log == old(log) + [Signalled(ok)]
    {
      ok := kills(calls);
      calls := calls + 1;
      log := log + [Signalled(ok)];
    }

    method Wait(who: Who) returns (status: Option<int>)
      modifies this
      ensures status == statuses(old(calls)) && calls == old(calls) + 1
      ensures now == old(now) && log == old(log) + [Waited(who, status)]
    {
      status := statuses(calls);
      calls := calls + 1;
      log := log + [Waited(who, status)];
    }

    method PollCapture() returns (poll: CapturePoll)
      modifies this
      ensures poll == captures(old(calls)) && calls == old(calls) + 1
      ensures now == old(now) && log == old(log)
    {
      poll := captures(calls);
      calls := calls + 1;
    }

    method Sleep()
      modifies this
      ensures now == old(now) + delays(old(calls)) + 1 && calls == old(calls) + 1 && log == old(log)
    {
      now := now + delays(calls) + 1;
      calls := calls + 1;
    }
  }

  // ---- What must never happen ----

  /** Which later event an earlier one rules out. */
  predicate Excludes(earlier: Event, later: Event) {
    match earlier
    case Spawned(_) => false
    case Signalled(ok) => ok && (later.Signalled? || later.Probed?)
    case Waited(who, _) =>
      later.Signalled? || later.Probed? || (later.Waited? && later.who == who)
    case Probed(who, liveness) =>
      && liveness == NotAChild
      && (if who == Keeper then true else (later.Probed? || later.Waited?) && later.who == Command)
  }

  /**
   What must have happened before an event: a signal needs its keeper, a wait its child and a signal that succeeded.
   */
  predicate Grounded(before: seq<Event>, event: Event) {
    && (event.Signalled? ==> Spawned(Keeper) in before)
    && (event.Waited? ==> Spawned(event.who) in before && Signalled(true) in before)
  }

  /** Nothing follows an event that rules it out, and every event has its grounds. */
  ghost predicate Safe(log: seq<Event>) {
    && (forall i, j | 0 <= i < j < |log| :: !Excludes(log[i], log[j]))
    && (forall j | 0 <= j < |log| :: Grounded(log[..j], log[j]))
  }

  /**
   The signals and waits of a log, spelled out. A group is signalled only once its keeper was started, and no more once
   a signal has succeeded, a child was waited for or the keeper was lost. A child is waited for only once it was started
   and a signal has succeeded, not twice, and not if it was lost.
   */
  ghost predicate OneKillThenWaits(log: seq<Event>) {
    && (forall j | 0 <= j < |log| && log[j].Signalled? :: exists i | 0 <= i < j :: log[i] == Spawned(Keeper))
    && (forall j | 0 <= j < |log| && log[j].Waited? :: exists i | 0 <= i < j :: log[i] == Spawned(log[j].who))
    && (forall j | 0 <= j < |log| && log[j].Waited? :: exists i | 0 <= i < j :: log[i] == Signalled(true))
    && (forall i, j | 0 <= i < j < |log| :: NoConflict(log[i], log[j]))
  }

  lemma SafeMeans(log: seq<Event>)
    requires Safe(log)
    ensures OneKillThenWaits(log)
  {
    hide Excludes;
    forall j | 0 <= j < |log| && log[j].Signalled? ensures exists i | 0 <= i < j :: log[i] == Spawned(Keeper) {
      EarlierEvent(log, j, Spawned(Keeper));
    }
    forall j | 0 <= j < |log| && log[j].Waited? ensures exists i | 0 <= i < j :: log[i] == Spawned(log[j].who) {
      EarlierEvent(log, j, Spawned(log[j].who));
    }
    forall j | 0 <= j < |log| && log[j].Waited? ensures exists i | 0 <= i < j :: log[i] == Signalled(true) {
      EarlierEvent(log, j, Signalled(true));
    }
    forall i, j | 0 <= i < j < |log| ensures NoConflict(log[i], log[j]) {
      ExcludedMeans(log[i], log[j]);
    }
  }

  /** What two events of a safe log, one before the other, cannot be. */
  predicate NoConflict(earlier: Event, later: Event) {
    && (earlier == Signalled(true) ==> !later.Signalled?)
    && (earlier.Waited? && later.Waited? ==> earlier.who != later.who)
    && (later.Signalled? ==> !earlier.Waited? && earlier != Probed(Keeper, NotAChild))
    && (earlier.Probed? && earlier.liveness.NotAChild? && later.Waited?
        ==> earlier.who == Command && later.who == Keeper)
  }

  lemma ExcludedMeans(earlier: Event, later: Event)
    requires !Excludes(earlier, later)
    ensures NoConflict(earlier, later)
  {
  }

  lemma EarlierEvent(log: seq<Event>, j: nat, event: Event)
    requires j < |log| && Safe(log) && Grounded(log[..j], log[j]) && event in log[..j]
    ensures exists i | 0 <= i < j :: log[i] == event
  {
    var i :| 0 <= i < j && log[..j][i] == event;
    assert log[i] == event;
  }

  // ---- What every call keeps ----

  ghost predicate Quiet(log: seq<Event>) {
    && Signalled(true) !in log && Probed(Keeper, NotAChild) !in log
    && forall event <- log :: !event.Waited?
  }

  /** An answer that leaves a process beyond this owner's reach. */
  predicate IsFault(event: Event) {
    match event
    case Spawned(_) => false
    case Signalled(ok) => !ok
    case Waited(_, status) => status.None?
    case Probed(_, liveness) => liveness == NotAChild || liveness == ProbeFailed
  }

  /** A wait for the child gave its status. */
  ghost predicate Reaps(log: seq<Event>, who: Who) {
    exists event <- log :: event.Waited? && event.who == who && event.status.Some?
  }

  ghost predicate WaitedFor(log: seq<Event>, who: Who) {
    exists event <- log :: event.Waited? && event.who == who
  }

  lemma ReapsMore(log: seq<Event>, event: Event, who: Who)
    ensures Reaps(log + [event], who) <==> Reaps(log, who) || (event.Waited? && event.who == who && event.status.Some?)
    ensures WaitedFor(log + [event], who) <==> WaitedFor(log, who) || (event.Waited? && event.who == who)
  {
    assert event in log + [event];
    assert forall e <- log :: e in log + [event];
  }

  ghost predicate NoFault(log: seq<Event>) {
    forall event <- log :: !IsFault(event)
  }

  ghost predicate Owned(child: bool, keeper: bool, ownership: Ownership, log: seq<Event>) {
    && Safe(log)
    && ownership != Signaled
    && (ownership == Pinned ==> keeper && Quiet(log) && (child ==> Probed(Command, NotAChild) !in log))
    && (ownership == Pinned && NoFault(log) && Spawned(Command) in log ==> child)
    && (ownership == Reaped ==> !child && !keeper && Signalled(true) in log && Reaps(log, Keeper))
    && (ownership == Reaped && NoFault(log) && Spawned(Command) in log ==> Reaps(log, Command))
    && (ownership == Lost ==> !NoFault(log))
    && (keeper ==> Spawned(Keeper) in log) && (child ==> Spawned(Command) in log)
  }

  lemma FaultMore(log: seq<Event>, event: Event)
    ensures NoFault(log + [event]) <==> NoFault(log) && !IsFault(event)
  {
    assert event in log + [event];
    assert forall e <- log :: e in log + [event];
  }

  lemma Extend(log: seq<Event>, event: Event)
    requires Safe(log)
    requires forall earlier <- log :: !Excludes(earlier, event)
    requires Grounded(log, event)
    ensures Safe(log + [event])
  {
    var more := log + [event];
    forall i, j | 0 <= i < j < |more| ensures !Excludes(more[i], more[j]) {
      if j == |log| {
        assert log[i] in log;
      }
    }
    forall j | 0 <= j < |more| ensures Grounded(more[..j], more[j]) {
      assert more[..j] == log[..j];
      assert log[..|log|] == log;
    }
  }

  lemma OwnedMeans(child: bool, keeper: bool, ownership: Ownership, log: seq<Event>)
    requires Owned(child, keeper, ownership, log)
    ensures ownership != Signaled && (ownership == Pinned ==> keeper)
    ensures ownership == Reaped ==> !child && !keeper && Signalled(true) in log
  {
  }

  /** Looking at the keeper keeps the invariant, if its loss is recorded. */
  lemma KeeperProbed(child: bool, log: seq<Event>, liveness: Liveness)
    requires Owned(child, true, Pinned, log)
    ensures liveness == NotAChild ==> Owned(child, false, Lost, log + [Probed(Keeper, liveness)])
    ensures liveness != NotAChild ==> Owned(child, true, Pinned, log + [Probed(Keeper, liveness)])
    ensures liveness in {NotAChild, ProbeFailed} ==> !NoFault(log + [Probed(Keeper, liveness)])
  {
    Extend(log, Probed(Keeper, liveness));
    FaultMore(log, Probed(Keeper, liveness));
  }

  lemma CommandProbed(log: seq<Event>, liveness: Liveness)
    requires Owned(true, true, Pinned, log)
    ensures Owned(liveness != NotAChild, true, Pinned, log + [Probed(Command, liveness)])
  {
    Extend(log, Probed(Command, liveness));
    FaultMore(log, Probed(Command, liveness));
  }

  /** The group is killed and the keeper not yet waited for; `child` says whether the command is still to be. */
  ghost predicate Killed(child: bool, log: seq<Event>) {
    && Safe(log) && Signalled(true) in log && Spawned(Keeper) in log && (child ==> Spawned(Command) in log)
    && Probed(Keeper, NotAChild) !in log && !WaitedFor(log, Keeper)
    && (child ==> Probed(Command, NotAChild) !in log && !WaitedFor(log, Command))
    && (NoFault(log) && Spawned(Command) in log ==> child || Reaps(log, Command))
  }

  lemma QuietAllowsSignal(log: seq<Event>, ok: bool)
    requires Quiet(log) && Safe(log) && Spawned(Keeper) in log
    ensures Safe(log + [Signalled(ok)])
    ensures Probed(Keeper, NotAChild) !in log
    ensures forall who, status :: Waited(who, status) !in log
    ensures !ok ==> Quiet(log + [Signalled(ok)])
  {
    hide Safe;
    assert forall earlier <- log :: !Excludes(earlier, Signalled(ok));
    Extend(log, Signalled(ok));
  }

  lemma GroupSignalled(child: bool, log: seq<Event>, ok: bool)
    requires Owned(child, true, Pinned, log)
    ensures ok ==> Killed(child, log + [Signalled(ok)])
    ensures !ok ==> Owned(child, true, Pinned, log + [Signalled(ok)]) && !NoFault(log + [Signalled(ok)])
  {
    hide Safe, Excludes, Grounded, NoFault, Quiet;
    QuietAllowsSignal(log, ok);
    FaultMore(log, Signalled(ok));
  }

  lemma CommandWaited(log: seq<Event>, status: Option<int>)
    requires Killed(true, log)
    ensures Killed(false, log + [Waited(Command, status)])
    ensures status.None? ==> !NoFault(log + [Waited(Command, status)])
  {
    hide Reaps, WaitedFor, NoFault;
    WaitAllowed(log, Command, status);
    FaultMore(log, Waited(Command, status));
    ReapsMore(log, Waited(Command, status), Command);
    ReapsMore(log, Waited(Command, status), Keeper);
  }

  lemma KeeperWaited(log: seq<Event>, status: Option<int>)
    requires Killed(false, log)
    ensures status.Some? ==> Owned(false, false, Reaped, log + [Waited(Keeper, status)])
    ensures !NoFault(log + [Waited(Keeper, status)]) ==> Owned(false, false, Lost, log + [Waited(Keeper, status)])
    ensures status.None? || !NoFault(log) ==> !NoFault(log + [Waited(Keeper, status)])
  {
    hide Reaps, WaitedFor, NoFault;
    WaitAllowed(log, Keeper, status);
    FaultMore(log, Waited(Keeper, status));
    ReapsMore(log, Waited(Keeper, status), Command);
    ReapsMore(log, Waited(Keeper, status), Keeper);
  }

  lemma WaitAllowed(log: seq<Event>, who: Who, status: Option<int>)
    requires Safe(log) && Signalled(true) in log && Spawned(who) in log && !WaitedFor(log, who)
    requires Probed(who, NotAChild) !in log && Probed(Keeper, NotAChild) !in log
    ensures Safe(log + [Waited(who, status)])
  {
    hide Safe;
    Extend(log, Waited(who, status));
  }

  /**
   Something in these answers keeps an orderly end from being reported: a fault, or a keeper that exited by itself.
   */
  ghost predicate Blamed(events: seq<Event>) {
    exists event <- events :: IsFault(event) || event == Probed(Keeper, Exited)
  }

  lemma BlamedFor(log: seq<Event>, start: nat, at: nat)
    requires start <= at < |log| && (IsFault(log[at]) || log[at] == Probed(Keeper, Exited))
    ensures Blamed(log[start..])
  {
    assert log[start..][at - start] == log[at];
  }

  lemma BlamedForLast(log: seq<Event>, start: nat)
    requires start < |log| && (IsFault(log[|log| - 1]) || log[|log| - 1] == Probed(Keeper, Exited))
    ensures Blamed(log[start..])
  {
    BlamedFor(log, start, |log| - 1);
  }

  lemma BlamedSince(log: seq<Event>, start: nat, later: nat)
    requires start <= later <= |log| && Blamed(log[later..])
    ensures Blamed(log[start..])
  {
    var event :| event in log[later..] && (IsFault(event) || event == Probed(Keeper, Exited));
    var i :| 0 <= i < |log[later..]| && log[later..][i] == event;
    assert log[start..][later - start + i] == event;
  }

  lemma StillBlamed(log: seq<Event>, more: seq<Event>, start: nat)
    requires start <= |log| && log <= more && Blamed(log[start..])
    ensures Blamed(more[start..])
  {
    var event :| event in log[start..] && (IsFault(event) || event == Probed(Keeper, Exited));
    assert log[start..] <= more[start..];
    assert event in more[start..];
  }

  ghost predicate Looked(events: seq<Event>) {
    exists event <- events :: event.Probed? && event.who == Command
  }

  lemma LookedMore(start: seq<Event>, log: seq<Event>, second: Liveness)
    requires start <= log
    ensures var more := log + [Probed(Keeper, Running)] + [Probed(Command, second)];
            && Looked(more[|start|..])
            && (Probed(Command, Exited) in more[|start|..]
                ==> Probed(Command, Exited) in log[|start|..] || second == Exited)
  {
    var more := log + [Probed(Keeper, Running)] + [Probed(Command, second)];
    assert more[|start|..] == log[|start|..] + [Probed(Keeper, Running)] + [Probed(Command, second)];
    assert Probed(Command, second) in more[|start|..];
  }

  class OwnedCommand {
    var child: bool
    var keeper: bool
    var ownership: Ownership
    var stdoutDone: bool
    var stderrDone: bool
    const deadline: nat
    const os: Os

    /** The guard, made as soon as the keeper is running. */
    constructor (os: Os, deadline: nat, capture: bool)
      requires Safe(os.log) && Quiet(os.log) && Spawned(Keeper) in os.log
      ensures this.os == os && this.deadline == deadline
      ensures !child && keeper && ownership == Pinned
      ensures stdoutDone == stderrDone == !capture
    {
      this.os, this.deadline := os, deadline;
      child, keeper, ownership := false, true, Pinned;
      stdoutDone, stderrDone := !capture, !capture;
    }

    ghost predicate Valid()
      reads this, os
    {
      Owned(child, keeper, ownership, os.log)
    }

    /**
     `observe_exit`: whether the command has exited, without reaping anything. A pinned owner looks at the keeper and,
     if that runs, at the command; a child found lost is given up.
     */
    method ObserveExit() returns (result: Result<bool, Failure>)
      requires Valid()
      modifies this`child, this`keeper, this`ownership, os
      ensures Valid() && os.now == old(os.now)
      ensures old(ownership) != Pinned ==> result == Err(NotPinned) && os.log == old(os.log)
      ensures old(ownership) != Pinned ==> ownership == old(ownership) && keeper == old(keeper) && child == old(child)
      ensures var first := os.livenesses(old(os.calls));
              old(ownership) == Pinned && first != Running ==>
                && os.log == old(os.log) + [Probed(Keeper, first)] && child == old(child)
                && result == Err(if first == Exited then KeeperExited else ProbeError)
                && ownership == if first == NotAChild then Lost else Pinned
      ensures old(ownership) == Pinned && os.livenesses(old(os.calls)) == Running && !old(child) ==>
                && os.log == old(os.log) + [Probed(Keeper, Running)] && !child
                && result == Err(NoCommand) && ownership == Pinned
      ensures var second := os.livenesses(old(os.calls) + 1);
              old(ownership) == Pinned && os.livenesses(old(os.calls)) == Running && old(child) ==>
                && os.log == old(os.log) + [Probed(Keeper, Running)] + [Probed(Command, second)]
                && result == (if second == Running || second == Exited then Ok(second == Exited) else Err(ProbeError))
                && ownership == Pinned && child == (second != NotAChild)
    {
      hide *;
      if ownership != Pinned {
        return Err(NotPinned);
      }
      var failure := ObserveKeeper();
      if failure.Some? {
        return Err(failure.value);
      }
      if !child {
        return Err(NoCommand);
      }
      result := ObserveCommand();
    }

    /** The first half, where nothing but a running keeper lets the look at the command go on. */
    method ObserveKeeper() returns (failure: Option<Failure>)
      requires Valid() && ownership == Pinned
      modifies this`keeper, this`ownership, os
      ensures Valid() && os.now == old(os.now) && os.calls == old(os.calls) + 1
      ensures var liveness := os.livenesses(old(os.calls));
              && os.log == old(os.log) + [Probed(Keeper, liveness)]
              && failure == (if liveness == Running then None
                             else Some(if liveness == Exited then KeeperExited else ProbeError))
              && ownership == if liveness == NotAChild then Lost else Pinned
    {
      hide Owned, NoFault;
      OwnedMeans(child, keeper, ownership, os.log);
      ghost var before := os.log;
      var liveness := os.ChildExited(Keeper);
      KeeperProbed(child, before, liveness);
      match liveness
      case Running => failure := None;
      case Exited => failure := Some(KeeperExited);
      case NotAChild =>
        ownership := Lost;
        keeper := false;
        failure := Some(ProbeError);
      case ProbeFailed => failure := Some(ProbeError);
    }

    /** The second half: the keeper runs, and the command is still held. */
    method ObserveCommand() returns (result: Result<bool, Failure>)
      requires Valid() && ownership == Pinned && child
      modifies this`child, os
      ensures Valid() && os.now == old(os.now)
      ensures var liveness := os.livenesses(old(os.calls));
              && os.log == old(os.log) + [Probed(Command, liveness)]
              && result == (if liveness == Running || liveness == Exited then Ok(liveness == Exited)
                            else Err(ProbeError))
              && child == (liveness != NotAChild)
    {
      hide Owned, NoFault, Safe;
      OwnedMeans(child, keeper, ownership, os.log);
      ghost var before := os.log;
      var exited := os.ChildExited(Command);
      CommandProbed(before, exited);
      match exited
      case Running => result := Ok(false);
      case Exited => result := Ok(true);
      case NotAChild =>
        child := false;
        result := Err(ProbeError);
      case ProbeFailed => result := Err(ProbeError);
    }

    /** `try_wait` */
    method TryWait() returns (result: Result<bool, Failure>)
      requires Valid()
      modifies this`child, this`keeper, this`ownership, os
      ensures Valid()
      ensures old(ownership) != Pinned ==> result.Err? && os.log == old(os.log) && ownership == old(ownership)
      ensures result.Ok? ==> ownership == Pinned && child
      ensures old(ownership) == Pinned && old(os.now) < deadline ==>
                old(os.log) + [Probed(Keeper, os.livenesses(old(os.calls)))] <= os.log
      ensures result == Err(TimedOut) ==> old(os.now) >= deadline
      ensures old(os.now) >= deadline
              ==> result == Err(TimedOut) && os.log == old(os.log) && ownership == old(ownership)
    {
      if os.now >= deadline {
        return Err(TimedOut);
      }
      result := ObserveExit();
    }

    /** `signal_and_reap`: kill the group once, then wait for each handle still held, giving each up first. */
    method SignalAndReap() returns (result: Result<Option<int>, Failure>)
      requires Valid()
      modifies this`child, this`keeper, this`ownership, os
      ensures Valid() && os.now == old(os.now) && old(os.log) <= os.log
      ensures old(ownership) in {Reaped, Lost} ==> os.log == old(os.log) && child == old(child) && keeper == old(keeper)
      ensures old(ownership) in {Reaped, Lost} ==> ownership == old(ownership)
      ensures result.Ok? ==> ownership == Reaped && result.value.Some? == old(child) && Signalled(true) in os.log
      ensures old(ownership) == Pinned && NoFault(os.log) ==> ownership == Reaped
      ensures result.Ok? && old(child) ==> Waited(Command, result.value) in os.log
      ensures result.Err? && old(ownership) == Pinned ==> Blamed(os.log[|old(os.log)|..])
      ensures result.Err? ==> result.error in {IdentityLost, ProbeError, SignalError, WaitError, KeeperExited}
    {
      hide Owned, Killed, NoFault, Safe, Blamed;
      OwnedMeans(child, keeper, ownership, os.log);
      ghost var start := |os.log|;
      var unexpected := false;
      if ownership == Lost {
        return Err(IdentityLost);
      }
      if ownership == Pinned {
        ghost var before := os.log;
        var liveness := os.ChildExited(Keeper);
        KeeperProbed(child, before, liveness);
        match liveness {
          case Running =>
          case Exited =>
            BlamedFor(os.log, start, start);
            unexpected := true;
          case NotAChild =>
            BlamedFor(os.log, start, start);
            ownership := Lost;
            keeper := false;
            return Err(ProbeError);
          case ProbeFailed =>
            BlamedFor(os.log, start, start);
            return Err(ProbeError);
        }
        ghost var probed := os.log;
        var ok := os.KillGroup();
        GroupSignalled(child, probed, ok);
        if unexpected {
          StillBlamed(probed, os.log, start);
        }
        if !ok {
          BlamedFor(os.log, start, start + 1);
          return Err(SignalError);
        }
        ownership := Signaled;
      }
      result := Reap(unexpected, start);
    }

    /** The waits: each handle still held is given up, then waited for. */
    method Reap(unexpected: bool, ghost start: nat) returns (result: Result<Option<int>, Failure>)
      requires if ownership == Signaled then Killed(child, os.log) && keeper
               else ownership == Reaped && Valid() && !unexpected
      requires start <= |os.log| && (unexpected ==> Blamed(os.log[start..]))
      modifies this`child, this`keeper, this`ownership, os
      ensures Valid() && os.now == old(os.now) && old(os.log) <= os.log
      ensures old(ownership) == Reaped ==> os.log == old(os.log) && ownership == Reaped && !child && !keeper
      ensures result.Ok? ==> ownership == Reaped && result.value.Some? == old(child) && Signalled(true) in os.log
      ensures NoFault(os.log) ==> ownership == Reaped
      ensures result.Ok? && old(child) ==> Waited(Command, result.value) in os.log
      ensures result.Err? ==> Blamed(os.log[start..]) && result.error in {WaitError, KeeperExited}
    {
      hide Owned, Killed, NoFault, Safe, Blamed;
      if ownership == Reaped {
        OwnedMeans(child, keeper, ownership, os.log);
      }
      ghost var middle := |os.log|;
      var command: Option<Option<int>> := None;
      if child {
        child := false;
        ghost var before := os.log;
        var status := os.Wait(Command);
        CommandWaited(before, status);
        command := Some(status);
      }
      var keeperLost := false;
      if keeper {
        keeper := false;
        ghost var before := os.log;
        var status := os.Wait(Keeper);
        KeeperWaited(before, status);
        keeperLost := status.None?;
      }
      if command == Some(None) || keeperLost {
        BlamedFor(os.log, start, if keeperLost then |os.log| - 1 else middle);
        ownership := Lost;
        return Err(WaitError);
      }
      ownership := Reaped;
      OwnedMeans(child, keeper, ownership, os.log);
      if unexpected {
        StillBlamed(old(os.log), os.log, start);
        return Err(KeeperExited);
      }
      result := Ok(match command case Some(status) => status case None => None);
    }

    /** `Drop`: no group is signalled by number once it is reaped. */
    method Drop()
      requires Valid()
      modifies this`child, this`keeper, this`ownership, os
      ensures Valid() && old(os.log) <= os.log
      ensures old(ownership) in {Reaped, Lost} ==> os.log == old(os.log) && ownership == old(ownership)
      ensures ownership != Reaped ==> !NoFault(os.log)
    {
      if ownership != Reaped {
        var result := SignalAndReap();
      }
    }

    /** `wait`: poll until the command has exited and its output is read, then reap. */
    method Wait() returns (result: Result<int, Failure>)
      requires Valid()
      modifies this`child, this`keeper, this`ownership, this`stdoutDone, this`stderrDone, os
      ensures Valid() && old(os.log) <= os.log
      ensures result.Ok? ==> ownership == Reaped && Signalled(true) in os.log
      ensures result.Ok? ==> Waited(Command, Some(result.value)) in os.log
      ensures result.Ok? ==> stdoutDone && stderrDone && Probed(Command, Exited) in os.log
      ensures old(ownership) != Pinned ==> result.Err? && os.log == old(os.log) && ownership == old(ownership)
      // Every error has its reason.
      ensures result == Err(TimedOut) ==> os.now >= deadline
      // It does not time out without having looked, nor past an exit with nothing left to read.
      ensures result == Err(TimedOut) && old(os.now) < deadline ==> Looked(os.log[|old(os.log)|..])
      ensures result == Err(TimedOut) && old(stdoutDone && stderrDone) ==>
                Probed(Command, Exited) !in os.log[|old(os.log)|..]
      ensures result == Err(NotPinned) ==> old(ownership) != Pinned
      ensures result == Err(CaptureError) ==> exists k :: os.captures(k) == Broken
      ensures result == Err(NoCommand) ==> !old(child)
      ensures result.Err? && result.error !in {TimedOut, NotPinned, CaptureError, NoCommand}
              ==> Blamed(os.log[|old(os.log)|..])
    {
      hide Owned, NoFault, Blamed, Looked;
      ghost var start := os.log;
      assert os.log[|start|..] == [];
      while true
        invariant old(ownership) == Pinned ==> ownership == Pinned && child == old(child)
        invariant old(ownership) != Pinned ==> os.log == start && ownership == old(ownership)
        invariant Valid() && start <= os.log
        invariant os.now == old(os.now) || Looked(os.log[|start|..])
        invariant old(stdoutDone && stderrDone) ==>
                    stdoutDone && stderrDone && Probed(Command, Exited) !in os.log[|start|..]
        decreases deadline - os.now
      {
        var read := PollCaptures();
        if !read {
          return Err(CaptureError);
        }
        if os.now >= deadline {
          return Err(TimedOut);
        }
        ghost var before, second := os.log, os.livenesses(os.calls + 1);
        var exited := ObserveExit();
        if exited.Err? {
          if exited.error !in {NotPinned, NoCommand} {
            BlamedForLast(os.log, |start|);
          }
          return Err(exited.error);
        }
        if exited.value && stdoutDone && stderrDone {
          result := Collect(|start|);
          return;
        }
        LookedMore(start, before, second);
        os.Sleep();
      }
    }

    /** One look at each output not yet read to its end. */
    method PollCaptures() returns (read: bool)
      modifies this`stdoutDone, this`stderrDone, os
      ensures os.log == old(os.log) && os.now == old(os.now)
      ensures !read ==> exists k :: os.captures(k) == Broken
      ensures (old(stdoutDone) ==> stdoutDone) && (old(stderrDone) ==> stderrDone)
    {
      if !stdoutDone {
        var poll := os.PollCapture();
        if poll == Broken {
          return false;
        }
        stdoutDone := poll == Finished;
      }
      if !stderrDone {
        var poll := os.PollCapture();
        if poll == Broken {
          return false;
        }
        stderrDone := poll == Finished;
      }
      read := true;
    }

    /** The end of a wait, once the command was seen to have exited. */
    method Collect(ghost start: nat) returns (result: Result<int, Failure>)
      requires Valid() && ownership == Pinned && child
      requires start < |os.log| && os.log[|os.log| - 1] == Probed(Command, Exited)
      modifies this`child, this`keeper, this`ownership, os
      ensures Valid() && os.now == old(os.now) && old(os.log) <= os.log
      ensures result.Ok? ==> ownership == Reaped && Signalled(true) in os.log
      ensures result.Ok? ==> Waited(Command, Some(result.value)) in os.log
      ensures Probed(Command, Exited) in os.log
      ensures result.Err? ==> Blamed(os.log[start..])
      ensures result.Err? ==> result.error in {IdentityLost, ProbeError, SignalError, WaitError, KeeperExited}
    {
      hide Owned, NoFault, Blamed;
      ghost var seen := os.log;
      var status := SignalAndReap();
      assert os.log[|seen| - 1] == Probed(Command, Exited);
      if status.Err? {
        BlamedSince(os.log, start, |seen|);
        return Err(status.error);
      }
      // The command's handle was held, so its status is there to be returned.
      result := Ok(status.value.value);
    }
  }

  lemma StartsOwned()
    ensures Safe([]) && NoFault([]) && Safe([Spawned(Keeper)]) && Quiet([Spawned(Keeper)])
    ensures Owned(false, true, Pinned, [Spawned(Keeper)])
    ensures Owned(true, true, Pinned, [Spawned(Keeper), Spawned(Command)])
  {
  }

  lemma OwnedEnds(child: bool, keeper: bool, ownership: Ownership, log: seq<Event>)
    requires Owned(child, keeper, ownership, log)
    ensures Safe(log)
    ensures ownership == Reaped ==> Reaps(log, Keeper)
    ensures ownership == Reaped && NoFault(log) && Spawned(Command) in log ==> Reaps(log, Command)
  {
  }

  /** `spawn_with_output`: the guard exists before the command is started, and cleans up if that fails. */
  method Spawn(os: Os, deadline: Option<nat>, capture: bool) returns (result: Result<OwnedCommand, Failure>)
    requires os.log == []
    modifies os
    ensures Safe(os.log)
    ensures result.Ok? ==> fresh(result.value) && result.value.os == os && result.value.Valid()
    ensures result.Ok? ==> result.value.ownership == Pinned && result.value.child
    ensures result.Ok? ==> os.log == [Spawned(Keeper), Spawned(Command)]
    ensures result == Err(BadDeadline) <==> deadline.None?
    ensures result.Ok? <==> deadline.Some? && os.spawns(old(os.calls)) && os.spawns(old(os.calls) + 1)
    ensures result.Err? ==> result.error in {BadDeadline, SpawnFailed}
    ensures Spawned(Keeper) in os.log <==> deadline.Some? && os.spawns(old(os.calls))
    ensures result.Err? && Spawned(Keeper) in os.log && NoFault(os.log) ==> Reaps(os.log, Keeper)
    ensures result.Err? && Spawned(Command) in os.log && NoFault(os.log) ==> Reaps(os.log, Command)
  {
    hide Safe, Owned, Quiet, NoFault;
    StartsOwned();
    if deadline.None? {
      return Err(BadDeadline);
    }
    var started := os.Spawn(Keeper);
    if !started {
      return Err(SpawnFailed);
    }
    var owned := new OwnedCommand(os, deadline.value, capture);
    started := os.Spawn(Command);
    if !started {
      owned.Drop();
      OwnedEnds(owned.child, owned.keeper, owned.ownership, os.log);
      assert os.log[0] == Spawned(Keeper);
      return Err(SpawnFailed);
    }
    owned.child := true;
    assert os.log == [Spawned(Keeper), Spawned(Command)];
    result := Ok(owned);
  }

  /** A use of an owned command between its start and its end: polls, in any number. */
  datatype Op = Poll | Observe

  /**
   Main result: every life of an owned command, whatever is asked and whatever is answered, is safe; and unless an
   answer is a fault, both processes are reaped by its end.
   */
  method Life(os: Os, deadline: Option<nat>, capture: bool, ops: seq<Op>, wait: bool)
    returns (result: Result<int, Failure>)
    requires os.log == []
    modifies os
    ensures Safe(os.log) && OneKillThenWaits(os.log)
    ensures Spawned(Keeper) in os.log <==> deadline.Some? && os.spawns(old(os.calls))
    ensures deadline.Some? && os.spawns(old(os.calls)) && os.spawns(old(os.calls) + 1) ==> Spawned(Command) in os.log
    ensures !wait ==> (result.Ok? <==> deadline.Some? && os.spawns(old(os.calls)) && os.spawns(old(os.calls) + 1))
    ensures result.Ok? && wait ==> Waited(Command, Some(result.value)) in os.log && Reaps(os.log, Keeper)
    ensures NoFault(os.log) && Spawned(Keeper) in os.log ==> Reaps(os.log, Keeper)
    ensures NoFault(os.log) && Spawned(Command) in os.log ==> Reaps(os.log, Command)
  {
    hide Safe, OneKillThenWaits, Owned, NoFault;
    var spawned := Spawn(os, deadline, capture);
    if spawned.Err? {
      SafeMeans(os.log);
      return Err(spawned.error);
    }
    var owned := spawned.value;
    for i := 0 to |ops|
      invariant fresh(owned) && owned.os == os && owned.Valid()
      invariant [Spawned(Keeper), Spawned(Command)] <= os.log
    {
      match ops[i]
      case Poll => var polled := owned.TryWait();
      case Observe => var observed := owned.ObserveExit();
    }
    result := Ok(0);
    if wait {
      result := owned.Wait();
    }
    owned.Drop();
    OwnedEnds(owned.child, owned.keeper, owned.ownership, os.log);
    assert os.log[0] == Spawned(Keeper) && os.log[1] == Spawned(Command);
    SafeMeans(os.log);
  }
}
