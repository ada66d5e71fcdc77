/**
 The signal wake-up and teardown protocol of native/iperf3rs_cli.c: a self-pipe written by signal
 handlers, an in-flight handler counter, and `prepare` / `cleanup` periods that open and close the pipe.

 Each action is one access to a shared atomic, one descriptor operation or one return; atomics are
 sequentially consistent, the default order of section 7.17.3 of ISO C11. Any number of handlers and
 select callers may be under way, on any threads, and descriptor numbers are reused freely.
 */
module SignalPipe {
  import opened Wrappers

  const WRAP: nat := 0x1_0000_0000
  const FD_SETSIZE: int := 1024

  /** What an open descriptor number refers to. */
  datatype Object = ReadEnd(period: nat) | WriteEnd(period: nat) | Foreign

  /** Where a handler instance stands in `iperf3rs_cli_signal`. */
  datatype HandlerPc =
    | Delivered          // nothing executed yet
    | Counted            // counter raised
    | Marked             // cli_signal stored
    | Loaded(fd: int)    // cli_writefd read
    | Written            // wake byte written, or skipped
    | Gone

  /** `live`: delivered in `period` after its `cli_signal = 0`. */
  datatype Handler = Handler(pc: HandlerPc, signal: int, period: nat, live: bool) {
    predicate InFlight() {
      pc.Counted? || pc.Marked? || pc.Loaded? || pc.Written?
    }
  }

  /** Where a caller stands in `iperf3rs_cli_select`; `wake`: the kernel counted the wake pipe. */
  datatype Caller =
    | Entered
    | Blocked
    | Woken(result: int, wake: bool)
    | Interrupted                        // returned -1 with EINTR because of cli_signal
    | Returned(result: int, wake: bool)

  /** Where the main thread stands in `prepare` and `cleanup`. */
  datatype Phase =
    | Idle
    | PipeMade | ReadSet | WriteSet | Cleared | Running
    | Cleaning | Retired | Drained | ReadReset | SignalReset | ReadClosed

  datatype State = State(
    signal: int,
    writefd: int,
    readfd: int,
    counter: nat,
    armed: set<int>,                 // signals whose action is our handler
    handlers: map<nat, Handler>,
    callers: map<nat, Caller>,
    fds: map<int, Object>,
    bytes: nat,                      // unread bytes in the pipe of this period
    period: nat,
    pipe: Option<(int, int)>,
    phase: Phase)

  datatype Action =
    // prepare
    | MakePipe(r: int, w: int) | PipeFails | SetRead | SetWrite | ClearSignal | Install(signal: int) | Prepared
    | PrepareFails
    // cleanup
    | BeginCleanup | Restore(signal: int, ok: bool) | Retire | Drain | ResetRead | ResetSignal | CloseRead | CloseWrite
    // a handler instance
    | Deliver(h: nat, signal: int) | Count(h: nat) | Mark(h: nat) | Load(h: nat) | Write(h: nat) | Leave(h: nat)
    // a select caller
    | Enter(t: nat) | Check(t: nat) | Wake(t: nat, others: nat, timedOut: bool) | SelectFails(t: nat) | Finish(t: nat)
    // other code of the process
    | Open(fd: int) | Close(fd: int)

  function Init(fds: map<int, Object>): State {
    State(0, -1, -1, 0, {}, map[], map[], fds, 0, 0, None, Idle)
  }

  predicate OnlyForeign(fds: map<int, Object>) {
    forall fd <- fds :: fds[fd].Foreign?
  }

  predicate InPrepare(p: Phase) {
    p.PipeMade? || p.ReadSet? || p.WriteSet? || p.Cleared?
  }

  function Active(s: State): set<nat> {
    set h | h in s.handlers && !s.handlers[h].pc.Gone?
  }

  function InFlight(s: State): set<nat> {
    set h | h in s.handlers && s.handlers[h].InFlight()
  }

  predicate At(s: State, h: nat, pc: HandlerPc) {
    h in s.handlers && s.handlers[h].pc == pc
  }

  predicate CallerAt(s: State, t: nat, c: Caller) {
    t in s.callers && s.callers[t] == c
  }

  predicate AllCallersDone(s: State) {
    forall t <- s.callers :: s.callers[t].Interrupted? || s.callers[t].Returned?
  }

  predicate Enabled(s: State, a: Action) {
    match a
    case MakePipe(r, w) => s.phase.Idle? && s.readfd < 0 && 0 <= r && 0 <= w && r != w && r !in s.fds && w !in s.fds
    case PipeFails => s.phase.Idle? && s.readfd < 0
    case SetRead => s.phase.PipeMade? && s.pipe.Some? && s.pipe.value.0 < FD_SETSIZE
    case SetWrite => s.phase.ReadSet? && s.pipe.Some?
    case ClearSignal => s.phase.WriteSet?
    case Install(signal) => s.phase.Cleared? && signal > 0
    case Prepared => s.phase.Cleared?
    case PrepareFails => s.phase.PipeMade? || s.phase.Cleared?
    // The caller of cleanup has joined every thread that selects.
    case BeginCleanup => s.phase.Running? && AllCallersDone(s)
    case Restore(signal, ok) => s.phase.Cleaning?
    case Retire => s.phase.Cleaning?
    case Drain => s.phase.Retired? && s.counter == 0
    case ResetRead => s.phase.Drained?
    case ResetSignal => s.phase.ReadReset?
    case CloseRead => s.phase.SignalReset?
    case CloseWrite => s.phase.ReadClosed?
    // Threads and nested signals are far fewer than the counter can hold.
    case Deliver(h, signal) => h !in s.handlers && signal in s.armed && signal > 0 && |Active(s)| + 1 < WRAP
    case Count(h) => At(s, h, Delivered)
    case Mark(h) => At(s, h, Counted)
    case Load(h) => At(s, h, Marked)
    case Write(h) => h in s.handlers && s.handlers[h].pc.Loaded?
    case Leave(h) => At(s, h, Written)
    case Enter(t) => s.phase.Running? && t !in s.callers
    case Check(t) => CallerAt(s, t, Entered)
    case Wake(t, others, timedOut) => CallerAt(s, t, Blocked) && (others > 0 || s.bytes > 0 || timedOut)
    case SelectFails(t) => CallerAt(s, t, Blocked)
    case Finish(t) => t in s.callers && s.callers[t].Woken?
    case Open(fd) => 0 <= fd && fd !in s.fds
    case Close(fd) => fd in s.fds && s.fds[fd].Foreign?
  }

  function Move(s: State, h: nat, pc: HandlerPc): map<nat, Handler>
    requires h in s.handlers
  {
    s.handlers[h := s.handlers[h].(pc := pc)]
  }

  function Apply(s: State, a: Action): State
    requires Enabled(s, a)
  {
    match a
    case MakePipe(r, w) =>
      s.(fds := s.fds[r := ReadEnd(s.period + 1)][w := WriteEnd(s.period + 1)], bytes := 0, period := s.period + 1,
         pipe := Some((r, w)), phase := PipeMade)
    case PipeFails => s.(pipe := None, phase := Cleaning)
    case SetRead => s.(readfd := s.pipe.value.0, phase := ReadSet)
    case SetWrite => s.(writefd := s.pipe.value.1, phase := WriteSet)
    case ClearSignal => s.(signal := 0, phase := Cleared)
    case Install(signal) => s.(armed := s.armed + {signal})
    case Prepared => s.(phase := Running)
    case PrepareFails => s.(phase := Cleaning)
    case BeginCleanup => s.(phase := Cleaning, callers := map[])
    case Restore(signal, ok) => s.(armed := if ok then s.armed - {signal} else s.armed)
    case Retire => s.(writefd := -1, phase := Retired)
    case Drain => s.(phase := Drained)
    case ResetRead => s.(readfd := -1, phase := ReadReset)
    case ResetSignal => s.(signal := 0, phase := SignalReset)
    case CloseRead => s.(fds := if s.pipe.Some? then s.fds - {s.pipe.value.0} else s.fds, phase := ReadClosed)
    case CloseWrite => s.(fds := if s.pipe.Some? then s.fds - {s.pipe.value.1} else s.fds, pipe := None, phase := Idle)
    case Deliver(h, signal) =>
      s.(handlers := s.handlers[h := Handler(Delivered, signal, s.period, s.phase.Cleared? || s.phase.Running?)])
    case Count(h) => s.(handlers := Move(s, h, Counted), counter := (s.counter + 1) % WRAP)
    case Mark(h) => s.(handlers := Move(s, h, Marked), signal := s.handlers[h].signal)
    case Load(h) => s.(handlers := Move(s, h, Loaded(s.writefd)))
    // A full pipe refuses the byte, and then holds others already.
    case Write(h) =>
      var fd := s.handlers[h].pc.fd;
      s.(handlers := Move(s, h, Written),
         bytes := if fd >= 0 && fd in s.fds && s.fds[fd] == WriteEnd(s.period) then s.bytes + 1 else s.bytes)
    case Leave(h) => s.(handlers := Move(s, h, Gone), counter := (s.counter + WRAP - 1) % WRAP)
    case Enter(t) => s.(callers := s.callers[t := Entered])
    case Check(t) => s.(callers := s.callers[t := if s.signal != 0 then Interrupted else Blocked])
    case Wake(t, others, timedOut) =>
      s.(callers := s.callers[t := Woken(others + if s.bytes > 0 then 1 else 0, s.bytes > 0)])
    case SelectFails(t) => s.(callers := s.callers[t := Woken(-1, false)])
    case Finish(t) =>
      var caller := if s.signal != 0 then Interrupted else Returned(s.callers[t].result, s.callers[t].wake);
      s.(callers := s.callers[t := caller])
    case Open(fd) => s.(fds := s.fds[fd := Foreign])
    case Close(fd) => s.(fds := s.fds - {fd})
  }

  function Play(s: State, actions: seq<Action>): Option<State> {
    if actions == [] then Some(s)
    else
      var before := Play(s, actions[..|actions| - 1]);
      var a := actions[|actions| - 1];
      if before.Some? && Enabled(before.value, a) then Some(Apply(before.value, a)) else None
  }

  // ---- A wake write only ever reaches the open pipe ----

  /** The pipe of this period is open, and handlers may still hold its number. */
  predicate PipeInUse(s: State) {
    InPrepare(s.phase) || s.phase.Running? || s.phase.Cleaning? || s.phase.Retired?
  }

  predicate PipeIsOpen(s: State) {
    && s.pipe.Some?
    && var (r, w) := s.pipe.value;
    && 0 <= r && 0 <= w && r != w
    && r in s.fds && s.fds[r] == ReadEnd(s.period) && w in s.fds && s.fds[w] == WriteEnd(s.period)
  }

  /** Handlers in flight are counted, and the counter has not wrapped. */
  predicate CounterIsExact(s: State) {
    s.counter == |InFlight(s)| && |Active(s)| < WRAP
  }

  predicate HoldsWriteEnd(s: State, fd: int) {
    fd >= 0 ==> PipeInUse(s) && s.pipe.Some? && fd == s.pipe.value.1
  }

  lemma NoneInFlight(s: State, h: nat)
    requires CounterIsExact(s) && s.counter == 0 && h in s.handlers
    ensures !s.handlers[h].InFlight()
  {
    assert s.handlers[h].InFlight() <==> h in InFlight(s);
  }

  lemma {:induction false} SubsetSize<T>(a: set<T>, b: set<T>)
    requires a <= b
    ensures |a| <= |b|
  {
    if a != {} {
      var x :| x in a;
      SubsetSize(a - {x}, b - {x});
    }
  }

  /** A handler step changes the in-flight set by that handler alone. */
  lemma HandlerSets(s: State, t: State, h: nat, pc: HandlerPc)
    requires h in s.handlers && t.handlers == Move(s, h, pc)
    ensures Active(t) == if pc.Gone? then Active(s) - {h} else Active(s) + {h}
    ensures InFlight(t) == if pc.Gone? || pc.Delivered? then InFlight(s) - {h} else InFlight(s) + {h}
  {
  }

  lemma CounterArithmetic(n: nat)
    requires n < WRAP
    ensures n + 1 < WRAP ==> (n + 1) % WRAP == n + 1
    ensures n > 0 ==> (n + WRAP - 1) % WRAP == n - 1
  {
  }

  lemma SameHandlers(s: State, t: State)
    requires t.handlers == s.handlers
    ensures Active(t) == Active(s) && InFlight(t) == InFlight(s)
  {
  }

  lemma NewHandler(s: State, t: State, h: nat, handler: Handler)
    requires h !in s.handlers && t.handlers == s.handlers[h := handler] && handler.pc == Delivered
    ensures Active(t) == Active(s) + {h} && h !in Active(s) && InFlight(t) == InFlight(s)
  {
  }

  lemma Membership(s: State, h: nat)
    requires h in s.handlers
    ensures h in Active(s) <==> !s.handlers[h].pc.Gone?
    ensures h in InFlight(s) <==> s.handlers[h].InFlight()
    ensures InFlight(s) <= Active(s)
  {
  }

  /** Every step keeps the counter equal to the number of handlers in flight. */
  lemma CounterStep(s: State, a: Action)
    requires CounterIsExact(s) && Enabled(s, a)
    ensures CounterIsExact(Apply(s, a))
  {
    hide Active, InFlight;
    var t := Apply(s, a);
    if a.Deliver? {
      NewHandler(s, t, a.h, t.handlers[a.h]);
    } else if a.Count? {
      CountStep(s, t, a.h);
    } else if a.Leave? {
      LeaveStep(s, t, a.h);
    } else if a.Mark? || a.Load? || a.Write? {
      Membership(s, a.h);
      HandlerSets(s, t, a.h, t.handlers[a.h].pc);
      assert Active(s) + {a.h} == Active(s) && InFlight(s) + {a.h} == InFlight(s);
    } else {
      SameHandlers(s, t);
    }
  }

  lemma CountStep(s: State, t: State, h: nat)
    requires CounterIsExact(s) && At(s, h, Delivered)
    requires t.handlers == Move(s, h, Counted) && t.counter == (s.counter + 1) % WRAP
    ensures CounterIsExact(t)
  {
    hide Active, InFlight;
    Membership(s, h);
    HandlerSets(s, t, h, Counted);
    SubsetSize(InFlight(s) + {h}, Active(s));
    assert Active(s) + {h} == Active(s);
    CounterArithmetic(s.counter);
  }

  lemma LeaveStep(s: State, t: State, h: nat)
    requires CounterIsExact(s) && At(s, h, Written)
    requires t.handlers == Move(s, h, Gone) && t.counter == (s.counter + WRAP - 1) % WRAP
    ensures CounterIsExact(t)
  {
    hide Active, InFlight;
    Membership(s, h);
    HandlerSets(s, t, h, Gone);
    SubsetSize(InFlight(s), Active(s));
    CounterArithmetic(s.counter);
  }

  /** From the reset of the signal to the start of cleanup. */
  predicate InPeriod(s: State) {
    s.phase.Cleared? || s.phase.Running?
  }

  /** Handlers that hold a descriptor hold the write end of the open pipe; draining finds none. */
  ghost predicate HoldersAreSafe(s: State) {
    forall h <- s.handlers :: s.handlers[h].pc.Loaded? ==> HoldsWriteEnd(s, s.handlers[h].pc.fd)
  }

  predicate PhaseIsConsistent(s: State) {
    && (s.pipe.Some? && (PipeInUse(s) || s.phase.Drained?) ==> PipeIsOpen(s))
    && (InPrepare(s.phase) || s.phase.Running? ==> s.pipe.Some?)
    && (s.phase.WriteSet? || s.phase.Cleared? || s.phase.Running? || s.phase.Cleaning? || s.writefd < 0)
    && (s.phase.WriteSet? || InPeriod(s) ==> s.writefd >= 0)
    && HoldsWriteEnd(s, s.writefd)
    && (s.callers != map[] ==> s.phase.Running?)
    && (s.phase.ReadReset? || s.phase.SignalReset? || s.phase.ReadClosed? || s.phase.Idle? ==> s.readfd < 0)
    && (s.phase.Idle? ==> s.pipe.None?)
  }

  ghost predicate Safe(s: State) {
    CounterIsExact(s) && HoldersAreSafe(s) && PhaseIsConsistent(s)
  }

  predicate IsMainStep(a: Action) {
    || a.MakePipe? || a.PipeFails? || a.SetRead? || a.SetWrite? || a.ClearSignal? || a.Install? || a.Prepared?
    || a.PrepareFails?
    || a.BeginCleanup? || a.Restore? || a.Retire? || a.Drain? || a.ResetRead? || a.ResetSignal? || a.CloseRead?
    || a.CloseWrite?
  }

  /** Handlers, callers and other code leave the main thread's variables and the pipe's descriptors alone. */
  lemma OtherStepFrame(s: State, a: Action)
    requires Enabled(s, a) && !IsMainStep(a)
    ensures var t := Apply(s, a);
            && t.phase == s.phase && t.pipe == s.pipe && t.writefd == s.writefd && t.readfd == s.readfd
            && t.period == s.period
            && t.armed == s.armed
            && (t.callers == s.callers || s.phase.Running? || s.callers != map[])
            && (PipeIsOpen(s) ==> PipeIsOpen(t))
  {
  }

  lemma MainStepPhase(s: State, a: Action)
    requires PhaseIsConsistent(s) && Enabled(s, a) && IsMainStep(a)
    ensures PhaseIsConsistent(Apply(s, a))
  {
  }

  lemma PhaseStep(s: State, a: Action)
    requires PhaseIsConsistent(s) && Enabled(s, a)
    ensures PhaseIsConsistent(Apply(s, a))
  {
    if IsMainStep(a) {
      MainStepPhase(s, a);
    } else {
      OtherStepFrame(s, a);
      hide Apply, Enabled, PipeIsOpen, IsMainStep;
    }
  }

  lemma HoldersStep(s: State, a: Action)
    requires Safe(s) && Enabled(s, a)
    ensures HoldersAreSafe(Apply(s, a))
  {
    if a.Drain? {
      forall h | h in s.handlers ensures !s.handlers[h].pc.Loaded? {
        NoneInFlight(s, h);
      }
    } else if !IsMainStep(a) {
      OtherStepFrame(s, a);
      hide CounterIsExact, PipeIsOpen, IsMainStep;
    } else {
      hide CounterIsExact, PipeIsOpen;
    }
  }

  lemma SafeStep(s: State, a: Action)
    requires Safe(s) && Enabled(s, a)
    ensures Safe(Apply(s, a))
  {
    hide CounterIsExact, HoldersAreSafe, PhaseIsConsistent, Apply, Enabled;
    CounterStep(s, a);
    PhaseStep(s, a);
    HoldersStep(s, a);
  }

  lemma {:induction false} PlayIsSafe(fds: map<int, Object>, actions: seq<Action>)
    requires OnlyForeign(fds) && Play(Init(fds), actions).Some?
    ensures Safe(Play(Init(fds), actions).value)
  {
    if actions == [] {
      var s := Init(fds);
      assert Active(s) == {} && InFlight(s) == {};
    } else {
      var before := actions[..|actions| - 1];
      PlayIsSafe(fds, before);
      SafeStep(Play(Init(fds), before).value, actions[|actions| - 1]);
    }
  }

  /** Main result: whatever the interleaving, a wake write goes to the write end of the pipe open now. */
  lemma WakeWriteReachesOpenPipe(fds: map<int, Object>, actions: seq<Action>, h: nat)
    requires OnlyForeign(fds) && Play(Init(fds), actions).Some?
    requires h in Play(Init(fds), actions).value.handlers
    requires Play(Init(fds), actions).value.handlers[h].pc.Loaded?
            && Play(Init(fds), actions).value.handlers[h].pc.fd >= 0
    ensures var s := Play(Init(fds), actions).value;
            var fd := s.handlers[h].pc.fd;
            fd in s.fds && s.fds[fd] == WriteEnd(s.period) && s.pipe.Some? && s.pipe.value.1 == fd
  {
    PlayIsSafe(fds, actions);
  }

  /** Closing either end happens only when no handler is between loading the descriptor and writing to it. */
  lemma CloseFindsNoHolder(fds: map<int, Object>, actions: seq<Action>, h: nat)
    requires OnlyForeign(fds) && Play(Init(fds), actions).Some?
    requires var s := Play(Init(fds), actions).value;
             h in s.handlers && (Enabled(s, CloseRead) || Enabled(s, CloseWrite))
    ensures var s := Play(Init(fds), actions).value;
            s.handlers[h].pc.Loaded? ==> s.handlers[h].pc.fd < 0
  {
    PlayIsSafe(fds, actions);
  }

  // ---- No wake-up is lost within a period ----

  predicate Past(pc: HandlerPc) {
    pc.Written? || pc.Gone?
  }

  predicate HasMarked(pc: HandlerPc) {
    pc.Marked? || pc.Loaded? || Past(pc)
  }

  /** What a handler delivered in this period has left behind. */
  predicate LeavesItsMark(s: State, h: Handler) {
    && h.signal > 0 && h.period <= s.period
    && (InPrepare(s.phase) && !s.phase.Cleared? ==> !(h.live && h.period == s.period))
    && (InPeriod(s) && h.live && h.period == s.period ==>
          && (HasMarked(h.pc) ==> s.signal != 0)
          && (h.pc.Loaded? ==> h.pc.fd >= 0)
          && (Past(h.pc) ==> s.bytes > 0))
  }

  ghost predicate WakesKept(s: State) {
    forall h <- s.handlers :: LeavesItsMark(s, s.handlers[h])
  }

  lemma WakesKeptStep(s: State, a: Action)
    requires Safe(s) && WakesKept(s) && Enabled(s, a)
    ensures WakesKept(Apply(s, a))
  {
    hide CounterIsExact;
    var t := Apply(s, a);
    forall h | h in t.handlers ensures LeavesItsMark(t, t.handlers[h]) {
      if h in s.handlers {
        HandlersStay(s, a, h);
        MarkStep(s, a, h);
      }
    }
  }

  lemma HandlersStay(s: State, a: Action, h: nat)
    requires Enabled(s, a) && h in s.handlers
    ensures h in Apply(s, a).handlers
  {
  }

  lemma MarkStep(s: State, a: Action, h: nat)
    requires Safe(s) && WakesKept(s) && Enabled(s, a) && h in s.handlers && h in Apply(s, a).handlers
    ensures LeavesItsMark(Apply(s, a), Apply(s, a).handlers[h])
  {
    hide LeavesItsMark, Safe, Apply, Enabled;
    assert LeavesItsMark(s, s.handlers[h]);
    if IsMainStep(a) {
      MainStepMark(s, a, h);
    } else if IsHandlerStep(a) {
      assert LeavesItsMark(s, s.handlers[ActingHandler(a)]) by { HandlerIsKnown(s, a); }
      HandlerStepMark(s, a, h);
    } else {
      OtherStepMark(s, a, h);
    }
  }

  predicate IsHandlerStep(a: Action) {
    a.Count? || a.Mark? || a.Load? || a.Write? || a.Leave?
  }

  function ActingHandler(a: Action): nat
    requires IsHandlerStep(a)
  {
    match a
    case Count(h) => h
    case Mark(h) => h
    case Load(h) => h
    case Write(h) => h
    case Leave(h) => h
  }

  lemma HandlerIsKnown(s: State, a: Action)
    requires Enabled(s, a) && IsHandlerStep(a)
    ensures ActingHandler(a) in s.handlers
  {
  }

  /** The main thread touches no handler, and a new pipe is of a new period. */
  lemma MainStepFrame(s: State, a: Action)
    requires Enabled(s, a) && IsMainStep(a)
    ensures var t := Apply(s, a);
            && t.handlers == s.handlers && t.period >= s.period
            && (a.MakePipe? ==> t.period > s.period)
            && (!a.MakePipe? ==> t.period == s.period && t.bytes == s.bytes)
            && (InPeriod(t) ==> a.ClearSignal? || (InPeriod(s) && t.signal == s.signal))
            && (InPrepare(t.phase) && !t.phase.Cleared? ==> a.MakePipe? || (InPrepare(s.phase) && !s.phase.Cleared?))
            && (a.ClearSignal? ==> s.phase.WriteSet?)
            && (a.MakePipe? ==> t.phase.PipeMade?)
  {
  }

  lemma MainStepMark(s: State, a: Action, h: nat)
    requires Enabled(s, a) && IsMainStep(a) && h in s.handlers && h in Apply(s, a).handlers
    requires LeavesItsMark(s, s.handlers[h])
    ensures LeavesItsMark(Apply(s, a), Apply(s, a).handlers[h])
  {
    MainStepFrame(s, a);
    hide Apply, Enabled, IsMainStep;
  }

  lemma HandlerStepMark(s: State, a: Action, h: nat)
    requires Safe(s) && Enabled(s, a) && IsHandlerStep(a) && h in s.handlers && h in Apply(s, a).handlers
    requires ActingHandler(a) in s.handlers && LeavesItsMark(s, s.handlers[ActingHandler(a)])
    requires LeavesItsMark(s, s.handlers[h])
    ensures LeavesItsMark(Apply(s, a), Apply(s, a).handlers[h])
  {
    hide CounterIsExact;
    assert PhaseIsConsistent(s) && HoldersAreSafe(s);
  }

  lemma OtherStepMark(s: State, a: Action, h: nat)
    requires Enabled(s, a) && !IsMainStep(a) && !IsHandlerStep(a) && h in s.handlers && h in Apply(s, a).handlers
    requires LeavesItsMark(s, s.handlers[h])
    ensures LeavesItsMark(Apply(s, a), Apply(s, a).handlers[h])
  {
  }

  lemma {:induction false} PlayKeepsWakes(fds: map<int, Object>, actions: seq<Action>)
    requires OnlyForeign(fds) && Play(Init(fds), actions).Some?
    ensures Safe(Play(Init(fds), actions).value) && WakesKept(Play(Init(fds), actions).value)
  {
    PlayIsSafe(fds, actions);
    if actions != [] {
      var before := actions[..|actions| - 1];
      PlayKeepsWakes(fds, before);
      WakesKeptStep(Play(Init(fds), before).value, actions[|actions| - 1]);
    }
  }

  /**
   Main result: once a handler delivered in this period has written, the signal is set, no select stays
   blocked, and every call that has yet to look at the signal returns EINTR.
   */
  lemma NoWakeUpIsLost(fds: map<int, Object>, actions: seq<Action>, h: nat, t: nat)
    requires OnlyForeign(fds) && Play(Init(fds), actions).Some?
    requires var s := Play(Init(fds), actions).value;
             && s.phase.Running? && h in s.handlers && t in s.callers
             && s.handlers[h].live && s.handlers[h].period == s.period && Past(s.handlers[h].pc)
    ensures var s := Play(Init(fds), actions).value;
            && s.signal != 0
            && (s.callers[t].Blocked? ==> Enabled(s, Wake(t, 0, false)))
            && (s.callers[t].Entered? ==> Enabled(s, Check(t)) && Apply(s, Check(t)).callers[t] == Interrupted)
            && (s.callers[t].Woken? ==> Enabled(s, Finish(t)) && Apply(s, Finish(t)).callers[t] == Interrupted)
  {
    hide *;
    PlayKeepsWakes(fds, actions);
    WokenByHandler(Play(Init(fds), actions).value, h, t);
  }

  /** A caller that has not returned yet never returns a result, and a new one never even blocks. */
  predicate Interrupts(s: State, t: State) {
    forall c <- t.callers ::
      && (t.callers[c].Returned? ==> c in s.callers && s.callers[c] == t.callers[c])
      && (t.callers[c].Blocked? ==> c in s.callers && s.callers[c].Blocked?)
  }

  lemma SignalStaysStep(s: State, a: Action)
    requires InPeriod(s) && s.signal != 0 && WakesKept(s) && Enabled(s, a) && StaysInPeriod(a)
    ensures InPeriod(Apply(s, a)) && Apply(s, a).signal != 0 && Interrupts(s, Apply(s, a))
  {
    if a.Mark? {
      assert LeavesItsMark(s, s.handlers[a.h]);
    }
  }

  lemma {:induction false} SignalStays(s: State, actions: seq<Action>)
    requires Safe(s) && WakesKept(s) && InPeriod(s) && s.signal != 0
    requires Play(s, actions).Some? && WithinPeriod(actions)
    ensures var t := Play(s, actions).value;
            Safe(t) && WakesKept(t) && InPeriod(t) && t.signal != 0 && Interrupts(s, t)
  {
    if actions != [] {
      var before, a := actions[..|actions| - 1], actions[|actions| - 1];
      SignalStays(s, before);
      var t := Play(s, before).value;
      hide Safe, WakesKept, InPeriod, Apply, Enabled;
      SafeStep(t, a);
      WakesKeptStep(t, a);
      SignalStaysStep(t, a);
    }
  }

  /**
   Main result over runs: once a handler of the period has finished, however the period goes on, every call begun
   afterwards is interrupted without blocking, and none that was under way returns a result.
   */
  lemma EveryLaterCallIsInterrupted(fds: map<int, Object>, before: seq<Action>, h: nat, after: seq<Action>)
    requires OnlyForeign(fds) && Play(Init(fds), before).Some?
    requires var s := Play(Init(fds), before).value;
             && s.phase.Running? && h in s.handlers
             && s.handlers[h].live && s.handlers[h].period == s.period && Past(s.handlers[h].pc)
    requires Play(Play(Init(fds), before).value, after).Some? && WithinPeriod(after)
    ensures var s := Play(Init(fds), before).value;
            var t := Play(s, after).value;
            && Interrupts(s, t)
            && (forall c <- t.callers :: c !in s.callers ==> t.callers[c].Entered? || t.callers[c].Interrupted?)
  {
    PlayKeepsWakes(fds, before);
    var s := Play(Init(fds), before).value;
    assert LeavesItsMark(s, s.handlers[h]);
    SignalStays(s, after);
    NewCallsNeverWake(s, after);
  }

  /** A call begun while the signal is set is never woken, because it never waits. */
  lemma {:induction false} NewCallsNeverWake(s: State, actions: seq<Action>)
    requires Safe(s) && WakesKept(s) && InPeriod(s) && s.signal != 0
    requires Play(s, actions).Some? && WithinPeriod(actions)
    ensures var t := Play(s, actions).value;
            forall c <- t.callers :: c !in s.callers ==> t.callers[c].Entered? || t.callers[c].Interrupted?
  {
    if actions != [] {
      var before, a := actions[..|actions| - 1], actions[|actions| - 1];
      NewCallsNeverWake(s, before);
      SignalStays(s, before);
      NewCallStep(s, Play(s, before).value, a);
    }
  }

  lemma NewCallStep(s: State, t: State, a: Action)
    requires t.signal != 0 && Enabled(t, a)
    requires forall c <- t.callers :: c !in s.callers ==> t.callers[c].Entered? || t.callers[c].Interrupted?
    ensures var callers := Apply(t, a).callers;
            forall c <- callers :: c !in s.callers ==> callers[c].Entered? || callers[c].Interrupted?
  {
  }

  lemma WokenByHandler(s: State, h: nat, t: nat)
    requires WakesKept(s) && s.phase.Running? && h in s.handlers && t in s.callers
    requires s.handlers[h].live && s.handlers[h].period == s.period && Past(s.handlers[h].pc)
    ensures s.signal != 0
    ensures s.callers[t].Blocked? ==> Enabled(s, Wake(t, 0, false))
    ensures s.callers[t].Entered? ==> Enabled(s, Check(t)) && Apply(s, Check(t)).callers[t] == Interrupted
    ensures s.callers[t].Woken? ==> Enabled(s, Finish(t)) && Apply(s, Finish(t)).callers[t] == Interrupted
  {
    assert LeavesItsMark(s, s.handlers[h]);
  }

  // ---- When a count of ready descriptors may include the wake pipe ----

  /** A handler that has stored its signal and may still write to the pipe. */
  predicate MayStillWrite(h: Handler) {
    h.pc.Marked? || (h.pc.Loaded? && h.pc.fd >= 0)
  }

  /** A wake byte is in the pipe, or on its way, without its signal: it came from an earlier period. */
  predicate Stale(s: State) {
    s.bytes > 0 || exists h <- s.handlers :: MayStillWrite(s.handlers[h])
  }

  /** Bytes, and handlers about to write them, are always announced by the signal. */
  ghost predicate Announced(s: State) {
    && (Stale(s) ==> s.signal != 0)
    && (forall t <- s.callers :: s.callers[t].Woken? && s.callers[t].wake ==> s.signal != 0)
    && (forall t <- s.callers :: !(s.callers[t].Returned? && s.callers[t].wake))
  }

  predicate StaysInPeriod(a: Action) {
    !a.BeginCleanup? && !a.PrepareFails?
  }

  lemma AnnouncedStep(s: State, a: Action)
    requires InPeriod(s) && WakesKept(s) && Announced(s) && Enabled(s, a) && StaysInPeriod(a)
    ensures InPeriod(Apply(s, a)) && Announced(Apply(s, a))
  {
    var t := Apply(s, a);
    assert forall h <- s.handlers :: s.handlers[h].signal > 0 by {
      forall h | h in s.handlers ensures s.handlers[h].signal > 0 {
        assert LeavesItsMark(s, s.handlers[h]);
      }
    }
    hide WakesKept;
    assert s.signal != 0 ==> t.signal != 0;
    if t.signal == 0 {
      assert !Stale(s);
      assert forall h <- s.handlers :: !MayStillWrite(s.handlers[h]);
    }
  }

  /** Some call returned a count that includes the wake pipe. */
  ghost predicate CountedWake(s: State) {
    exists t <- s.callers :: s.callers[t].Returned? && s.callers[t].result >= 0 && s.callers[t].wake
  }

  /** A schedule that runs on inside the period. */
  predicate WithinPeriod(actions: seq<Action>) {
    forall i | 0 <= i < |actions| :: StaysInPeriod(actions[i])
  }

  lemma {:induction false} AnnouncedThroughout(s: State, actions: seq<Action>)
    requires Safe(s) && InPeriod(s) && WakesKept(s) && Announced(s)
    requires Play(s, actions).Some? && WithinPeriod(actions)
    ensures var t := Play(s, actions).value; Safe(t) && InPeriod(t) && WakesKept(t) && Announced(t)
  {
    if actions != [] {
      var before, a := actions[..|actions| - 1], actions[|actions| - 1];
      AnnouncedThroughout(s, before);
      var t := Play(s, before).value;
      hide Safe, WakesKept, Announced, InPeriod, Apply, Enabled;
      SafeStep(t, a);
      WakesKeptStep(t, a);
      AnnouncedStep(t, a);
    }
  }

  lemma Then(s: State, actions: seq<Action>, a: Action) returns (longer: seq<Action>, t: State)
    requires Play(s, actions).Some? && Enabled(Play(s, actions).value, a)
    ensures longer == actions + [a] && t == Apply(Play(s, actions).value, a) && Play(s, longer) == Some(t)
  {
    longer, t := actions + [a], Apply(Play(s, actions).value, a);
    assert longer[..|longer| - 1] == actions;
  }

  /** The stale handler finishes its write while the signal is still clear. */
  lemma StaleByteArrives(s: State, r: State, actions: seq<Action>) returns (longer: seq<Action>, t: State)
    requires Play(r, actions) == Some(s) && WithinPeriod(actions)
    requires Safe(s) && s.phase.Running? && Stale(s)
    ensures Play(r, longer) == Some(t) && WithinPeriod(longer)
    ensures t.phase.Running? && t.bytes > 0 && t.signal == s.signal && t.callers == s.callers
  {
    hide Play, Apply, Enabled, Stale;
    longer, t := actions, s;
    if s.bytes == 0 {
      var h := StaleHandler(s);
      if s.handlers[h].pc.Marked? {
        StaleLoads(s, h);
        longer, t := Then(r, longer, Load(h));
        SafeStep(s, Load(h));
      }
      StaleWrites(t, h);
      longer, t := Then(r, longer, Write(h));
    }
  }

  lemma StaleHandler(s: State) returns (h: nat)
    requires Stale(s) && s.bytes == 0
    ensures h in s.handlers && MayStillWrite(s.handlers[h])
  {
    h :| h in s.handlers && MayStillWrite(s.handlers[h]);
  }

  lemma StaleLoads(s: State, h: nat)
    requires Safe(s) && s.phase.Running? && At(s, h, Marked)
    ensures Enabled(s, Load(h))
    ensures var t := Apply(s, Load(h));
            && t.phase == s.phase && t.bytes == s.bytes && t.signal == s.signal && t.callers == s.callers
            && h in t.handlers && t.handlers[h].pc.Loaded? && t.handlers[h].pc.fd >= 0
  {
    assert PhaseIsConsistent(s);
  }

  lemma StaleWrites(s: State, h: nat)
    requires Safe(s) && s.phase.Running? && h in s.handlers && s.handlers[h].pc.Loaded? && s.handlers[h].pc.fd >= 0
    ensures Enabled(s, Write(h))
    ensures var t := Apply(s, Write(h));
            t.phase == s.phase && t.bytes > s.bytes && t.signal == s.signal && t.callers == s.callers
  {
    assert HoldersAreSafe(s);
    assert HoldsWriteEnd(s, s.handlers[h].pc.fd);
  }

  /** From a stale start, a call that begins after the signal was cleared reports the wake pipe as ready. */
  lemma StaleByteIsCounted(s: State) returns (actions: seq<Action>)
    requires Safe(s) && s.phase.Cleared? && s.signal == 0 && Stale(s)
    ensures WithinPeriod(actions) && Play(s, actions).Some? && CountedWake(Play(s, actions).value)
  {
    var t: State;
    actions, t := Then(s, [], Prepared);
    assert Safe(t) by {
      SafeStep(s, Prepared);
    }
    assert Stale(t);
    actions, t := StaleByteArrives(t, s, actions);
    actions, t := CallIsCounted(t, s, actions);
  }

  /** One caller, in a period whose pipe holds a byte that no signal announces. */
  predicate Calling(s: State, caller: Caller) {
    s.phase.Running? && s.bytes > 0 && s.signal == 0 && s.callers == map[0 := caller]
  }

  lemma CallEnters(s: State)
    requires s.phase.Running? && s.bytes > 0 && s.signal == 0 && s.callers == map[]
    ensures Enabled(s, Enter(0)) && Calling(Apply(s, Enter(0)), Entered)
  {
  }

  lemma CallBlocks(s: State)
    requires Calling(s, Entered)
    ensures Enabled(s, Check(0)) && Calling(Apply(s, Check(0)), Blocked)
  {
  }

  lemma CallWakes(s: State)
    requires Calling(s, Blocked)
    ensures Enabled(s, Wake(0, 0, false)) && Calling(Apply(s, Wake(0, 0, false)), Woken(1, true))
  {
  }

  lemma CallReturns(s: State)
    requires Calling(s, Woken(1, true))
    ensures Enabled(s, Finish(0)) && CountedWake(Apply(s, Finish(0)))
  {
    assert Apply(s, Finish(0)).callers[0] == Returned(1, true);
  }

  lemma CallIsCounted(s: State, r: State, actions: seq<Action>) returns (longer: seq<Action>, t: State)
    requires Play(r, actions) == Some(s) && WithinPeriod(actions)
    requires s.phase.Running? && s.bytes > 0 && s.signal == 0 && s.callers == map[]
    ensures Play(r, longer) == Some(t) && WithinPeriod(longer) && CountedWake(t)
  {
    hide Play, Apply, Enabled, Calling, CountedWake;
    CallEnters(s);
    longer, t := Then(r, actions, Enter(0));
    CallBlocks(t);
    longer, t := Then(r, longer, Check(0));
    CallWakes(t);
    longer, t := Then(r, longer, Wake(0, 0, false));
    CallReturns(t);
    longer, t := Then(r, longer, Finish(0));
  }

  /**
   Main result: for the period that starts when `prepare` resets the signal, no call ever counts the wake
   pipe among the ready descriptors if, and only if, the reset found the new pipe empty and no handler
   between storing its signal and writing its byte.
   */
  lemma WakePipeIsNeverCountedExactlyWhenFresh(fds: map<int, Object>, before: seq<Action>, s: State)
    requires OnlyForeign(fds) && Play(Init(fds), before).Some? && Enabled(Play(Init(fds), before).value, ClearSignal)
    requires s == Apply(Play(Init(fds), before).value, ClearSignal)
    ensures (forall actions :: WithinPeriod(actions) && Play(s, actions).Some? ==> !CountedWake(Play(s, actions).value))
            <==> !Stale(s)
  {
    PlayKeepsWakes(fds, before);
    var p := Play(Init(fds), before).value;
    SafeStep(p, ClearSignal);
    WakesKeptStep(p, ClearSignal);
    if Stale(s) {
      var actions := StaleByteIsCounted(s);
    } else {
      forall actions | WithinPeriod(actions) && Play(s, actions).Some? ensures !CountedWake(Play(s, actions).value) {
        AnnouncedThroughout(s, actions);
      }
    }
  }

  // ---- A period as its callers see it ----

  predicate SignalStored(actions: seq<Action>) {
    exists i | 0 <= i < |actions| :: actions[i].Mark?
  }

  /**
   What a caller of a plain `select` that fails with EINTR once a signal has been stored would be told. The kernel's
   count is the one of the caller's own descriptors.
   */
  function Called(actions: seq<Action>, c: nat): (caller: Option<Caller>)
    ensures caller.Some? && (caller.value.Woken? || caller.value.Returned?) ==> !caller.value.wake
  {
    if actions == [] then None
    else
      var earlier, a := actions[..|actions| - 1], actions[|actions| - 1];
      var before := Called(earlier, c);
      if a == Enter(c) then Some(Entered)
      else if a == Check(c) then Some(if SignalStored(earlier) then Interrupted else Blocked)
      else if a.Wake? && a.t == c then Some(Woken(a.others, false))
      else if a == SelectFails(c) then Some(Woken(-1, false))
      else if a == Finish(c) && before.Some? && before.value.Woken? then
        Some(if SignalStored(earlier) then Interrupted else Returned(before.value.result, false))
      else before
  }

  /** The callers are as a plain `select` would have them; only a woken one may know of the pipe, after a signal. */
  ghost predicate AsSelect(s: State, actions: seq<Action>) {
    forall c: nat :: AsCalled(s, actions, c)
  }

  predicate AsCalled(s: State, actions: seq<Action>, c: nat) {
    && (c in s.callers <==> Called(actions, c).Some?)
    && (c in s.callers ==>
          || s.callers[c] == Called(actions, c).value
          || (SignalStored(actions) && s.callers[c].Woken? && Called(actions, c).value.Woken?))
  }

  /** Until a handler stores its signal, the signal is clear and the pipe is empty. */
  predicate Unmarked(s: State, actions: seq<Action>) {
    if SignalStored(actions) then s.signal != 0 else s.signal == 0 && !Stale(s)
  }

  lemma StoredMore(actions: seq<Action>, a: Action)
    ensures SignalStored(actions + [a]) <==> SignalStored(actions) || a.Mark?
  {
    var more := actions + [a];
    assert more[|actions|] == a && forall i | 0 <= i < |actions| :: more[i] == actions[i];
  }

  lemma UnmarkedStep(s: State, actions: seq<Action>, a: Action)
    requires InPeriod(s) && WakesKept(s) && Unmarked(s, actions) && Enabled(s, a) && StaysInPeriod(a)
    ensures Unmarked(Apply(s, a), actions + [a])
  {
    StoredMore(actions, a);
    hide SignalStored;
    if a.Mark? {
      assert LeavesItsMark(s, s.handlers[a.h]);
    }
  }

  lemma AsCalledStep(s: State, actions: seq<Action>, a: Action, c: nat)
    requires Unmarked(s, actions) && AsCalled(s, actions, c) && Enabled(s, a) && StaysInPeriod(a)
    ensures AsCalled(Apply(s, a), actions + [a], c)
  {
    StoredMore(actions, a);
    CalledMore(actions, a, c);
    hide SignalStored, Called, Stale;
    assert s.signal != 0 || s.bytes == 0 by {
      QuietPipe(s, actions);
    }
    if a.Finish? && a.t == c {
      assert s.callers[c].Woken?;
    }
  }

  lemma QuietPipe(s: State, actions: seq<Action>)
    requires Unmarked(s, actions)
    ensures s.signal != 0 || s.bytes == 0
  {
  }

  lemma CalledMore(actions: seq<Action>, a: Action, c: nat)
    ensures var before := Called(actions, c);
            Called(actions + [a], c) ==
              if a == Enter(c) then Some(Entered)
              else if a == Check(c) then Some(if SignalStored(actions) then Interrupted else Blocked)
              else if a.Wake? && a.t == c then Some(Woken(a.others, false))
              else if a == SelectFails(c) then Some(Woken(-1, false))
              else if a == Finish(c) && before.Some? && before.value.Woken? then
                Some(if SignalStored(actions) then Interrupted else Returned(before.value.result, false))
              else before
  {
    assert (actions + [a])[..|actions|] == actions;
  }

  /**
   Main result on the calls of a period that starts fresh: each is told what a plain `select` would tell it, for every
   run. It waits unless a signal was stored before, it returns the kernel's own result unless a signal was stored by
   then, and is interrupted exactly otherwise; while no handler stores a signal, no call is.
   */
  lemma {:induction false} CallsAreSelects(fds: map<int, Object>, before: seq<Action>, s: State, actions: seq<Action>)
    requires OnlyForeign(fds) && Play(Init(fds), before).Some? && Enabled(Play(Init(fds), before).value, ClearSignal)
    requires s == Apply(Play(Init(fds), before).value, ClearSignal) && !Stale(s)
    requires Play(s, actions).Some? && WithinPeriod(actions)
    ensures AsSelect(Play(s, actions).value, actions)
    ensures !SignalStored(actions) ==> forall c <- Play(s, actions).value.callers ::
                                   !Play(s, actions).value.callers[c].Interrupted?
  {
    hide *;
    PlayKeepsWakes(fds, before);
    FreshStart(Play(Init(fds), before).value, s);
    CallsFromFresh(s, actions);
    NoneInterrupted(Play(s, actions).value, actions);
  }

  /** The four steps of one call. */
  function CallSteps(c: nat, others: nat, timedOut: bool): seq<Action> {
    [Enter(c), Check(c), Wake(c, others, timedOut), Finish(c)]
  }

  /** An ordinary call: while no signal was stored it waits, and returns what the kernel counted of its descriptors. */
  lemma OrdinaryCallReturns(fds: map<int, Object>, before: seq<Action>, s: State, actions: seq<Action>,
                            c: nat, others: nat, timedOut: bool)
    requires OnlyForeign(fds) && Play(Init(fds), before).Some? && Enabled(Play(Init(fds), before).value, ClearSignal)
    requires s == Apply(Play(Init(fds), before).value, ClearSignal) && !Stale(s)
    requires Play(s, actions).Some? && WithinPeriod(actions) && !SignalStored(actions)
    requires var t := Play(s, actions).value; t.phase.Running? && c !in t.callers
    requires others > 0 || timedOut
    ensures var t := Play(s, actions).value;
            var steps := CallSteps(c, others, timedOut);
            var blocked, returned := Play(t, steps[..2]), Play(t, steps);
            && blocked.Some? && CallerAt(blocked.value, c, Blocked)
            && returned.Some? && CallerAt(returned.value, c, Returned(others, false))
  {
    hide *;
    PlayKeepsWakes(fds, before);
    FreshStart(Play(Init(fds), before).value, s);
    CallsFromFresh(s, actions);
    CallFromQuiet(Play(s, actions).value, actions, c, others, timedOut);
  }

  lemma CallFromQuiet(t: State, actions: seq<Action>, c: nat, others: nat, timedOut: bool)
    requires Unmarked(t, actions) && !SignalStored(actions)
    requires t.phase.Running? && c !in t.callers && (others > 0 || timedOut)
    ensures var steps := CallSteps(c, others, timedOut);
            var blocked, returned := Play(t, steps[..2]), Play(t, steps);
            && blocked.Some? && CallerAt(blocked.value, c, Blocked)
            && returned.Some? && CallerAt(returned.value, c, Returned(others, false))
  {
    hide Play, Apply, Enabled, QuietAt, CallSteps;
    NothingPlayed(t);
    QuietCall(t, c, others, timedOut);
    var steps, u := Then(t, [], Enter(c));
    QuietCall(u, c, others, timedOut);
    steps, u := Then(t, steps, Check(c));
    QuietMeans(u, c, Blocked);
    FirstSteps(c, others, timedOut);
    QuietCall(u, c, others, timedOut);
    steps, u := Then(t, steps, Wake(c, others, timedOut));
    QuietCall(u, c, others, timedOut);
    steps, u := Then(t, steps, Finish(c));
  }

  predicate QuietAt(s: State, c: nat, caller: Caller) {
    s.signal == 0 && s.bytes == 0 && CallerAt(s, c, caller)
  }

  lemma QuietMeans(s: State, c: nat, caller: Caller)
    requires QuietAt(s, c, caller)
    ensures CallerAt(s, c, caller)
  {
  }

  lemma QuietCall(s: State, c: nat, others: nat, timedOut: bool)
    requires others > 0 || timedOut
    ensures s.signal == 0 && s.bytes == 0 && s.phase.Running? && c !in s.callers
            ==> Enabled(s, Enter(c)) && QuietAt(Apply(s, Enter(c)), c, Entered)
    ensures QuietAt(s, c, Entered) ==> Enabled(s, Check(c)) && QuietAt(Apply(s, Check(c)), c, Blocked)
    ensures QuietAt(s, c, Blocked)
            ==> Enabled(s, Wake(c, others, timedOut))
                && QuietAt(Apply(s, Wake(c, others, timedOut)), c, Woken(others, false))
    ensures QuietAt(s, c, Woken(others, false))
            ==> Enabled(s, Finish(c)) && CallerAt(Apply(s, Finish(c)), c, Returned(others, false))
  {
  }

  lemma NothingPlayed(s: State)
    ensures Play(s, []) == Some(s)
  {
  }

  lemma FirstSteps(c: nat, others: nat, timedOut: bool)
    ensures CallSteps(c, others, timedOut)[..2] == [] + [Enter(c)] + [Check(c)]
    ensures CallSteps(c, others, timedOut)
            == [] + [Enter(c)] + [Check(c)] + [Wake(c, others, timedOut)] + [Finish(c)]
  {
  }

  lemma FreshStart(p: State, s: State)
    requires Safe(p) && WakesKept(p) && Enabled(p, ClearSignal) && s == Apply(p, ClearSignal) && !Stale(s)
    ensures Safe(s) && WakesKept(s) && InPeriod(s) && Unmarked(s, []) && AsSelect(s, [])
  {
    SafeStep(p, ClearSignal);
    WakesKeptStep(p, ClearSignal);
    assert PhaseIsConsistent(p);
  }

  lemma {:induction false} CallsFromFresh(s: State, actions: seq<Action>)
    requires Safe(s) && WakesKept(s) && InPeriod(s) && Unmarked(s, []) && AsSelect(s, [])
    requires Play(s, actions).Some? && WithinPeriod(actions)
    ensures var t := Play(s, actions).value;
            Safe(t) && WakesKept(t) && InPeriod(t) && Unmarked(t, actions) && AsSelect(t, actions)
  {
    hide Safe, WakesKept, InPeriod, Apply, Enabled, Unmarked, AsSelect;
    if actions != [] {
      var earlier, a := actions[..|actions| - 1], actions[|actions| - 1];
      CallsFromFresh(s, earlier);
      var t := Play(s, earlier).value;
      SafeStep(t, a);
      WakesKeptStep(t, a);
      StaysIn(t, a);
      UnmarkedStep(t, earlier, a);
      AsSelectStep(t, earlier, a);
      assert earlier + [a] == actions;
    }
  }

  lemma AsSelectStep(s: State, actions: seq<Action>, a: Action)
    requires Unmarked(s, actions) && AsSelect(s, actions) && Enabled(s, a) && StaysInPeriod(a)
    ensures AsSelect(Apply(s, a), actions + [a])
  {
    hide Apply, Enabled, Unmarked, AsCalled;
    forall c: nat ensures AsCalled(Apply(s, a), actions + [a], c) {
      assert AsCalled(s, actions, c);
      AsCalledStep(s, actions, a, c);
    }
  }

  lemma StaysIn(s: State, a: Action)
    requires InPeriod(s) && Enabled(s, a) && StaysInPeriod(a)
    ensures InPeriod(Apply(s, a))
  {
  }

  lemma {:induction false} NoneInterrupted(s: State, actions: seq<Action>)
    requires AsSelect(s, actions)
    ensures !SignalStored(actions) ==> forall c <- s.callers :: !s.callers[c].Interrupted?
  {
    if !SignalStored(actions) {
      forall c | c in s.callers ensures !s.callers[c].Interrupted? {
        assert AsCalled(s, actions, c);
        CalledUnmarked(actions, c);
      }
    }
  }

  lemma {:induction false} CalledUnmarked(actions: seq<Action>, c: nat)
    requires !SignalStored(actions)
    ensures Called(actions, c).Some? ==> !Called(actions, c).value.Interrupted?
  {
    if actions != [] {
      var earlier := actions[..|actions| - 1];
      assert actions == earlier + [actions[|actions| - 1]];
      StoredMore(earlier, actions[|actions| - 1]);
      CalledUnmarked(earlier, c);
    }
  }

  /** The signal of the last handler that has stored one, zero before the first. */
  function LastMark(s: State, actions: seq<Action>): int
    requires Play(s, actions).Some?
  {
    if actions == [] then 0
    else
      var earlier, a := actions[..|actions| - 1], actions[|actions| - 1];
      var t := Play(s, earlier).value;
      if a.Mark? && a.h in t.handlers then t.handlers[a.h].signal else LastMark(s, earlier)
  }

  /** What `iperf3rs_cli_interrupted` reads in a period is the signal last stored since the reset. */
  lemma {:induction false} SignalIsTheLastMark(s: State, actions: seq<Action>)
    requires s.signal == 0 && InPeriod(s) && Play(s, actions).Some? && WithinPeriod(actions)
    ensures Play(s, actions).value.signal == LastMark(s, actions) && InPeriod(Play(s, actions).value)
  {
    if actions != [] {
      var earlier, a := actions[..|actions| - 1], actions[|actions| - 1];
      SignalIsTheLastMark(s, earlier);
      StaysIn(Play(s, earlier).value, a);
    }
  }

  /** A stale start happens: a handler delivered in one period stores its signal just before the next one's reset. */
  lemma StaleStartHappens() returns (before: seq<Action>, s: State)
    ensures Play(Init(map[]), before).Some? && Enabled(Play(Init(map[]), before).value, ClearSignal)
    ensures s == Apply(Play(Init(map[]), before).value, ClearSignal) && Stale(s)
  {
    var i := Init(map[]);
    before := FirstPeriodLeavesAHandler(i);
    before, s := Then(i, before, MakePipe(3, 4));
    before, s := Then(i, before, SetRead);
    before, s := Then(i, before, SetWrite);
    before, s := Then(i, before, Count(0));
    before, s := Then(i, before, Mark(0));
    s := Apply(s, ClearSignal);
    assert MayStillWrite(s.handlers[0]);
  }

  /** A whole period in which a handler is delivered on another thread and executes nothing yet. */
  lemma FirstPeriodLeavesAHandler(i: State) returns (actions: seq<Action>)
    requires i == Init(map[])
    ensures Play(i, actions).Some?
    ensures var s := Play(i, actions).value;
            s.phase.Idle? && s.readfd < 0 && s.fds == map[] && At(s, 0, Delivered) && s.callers == map[] && s.pipe.None?
  {
    var s: State;
    actions, s := Then(i, [], MakePipe(3, 4));
    hide Play;
    actions, s := Then(i, actions, SetRead);
    assert s == State(0, -1, 3, 0, {}, map[], map[], map[3 := ReadEnd(1), 4 := WriteEnd(1)], 0, 1, Some((3, 4)),
                      ReadSet);
    actions, s := Then(i, actions, SetWrite);
    actions, s := Then(i, actions, ClearSignal);
    assert s == State(0, 4, 3, 0, {}, map[], map[], map[3 := ReadEnd(1), 4 := WriteEnd(1)], 0, 1, Some((3, 4)),
                      Cleared);
    actions, s := Then(i, actions, Install(2));
    actions, s := Then(i, actions, Prepared);
    assert s == State(0, 4, 3, 0, {2}, map[], map[], map[3 := ReadEnd(1), 4 := WriteEnd(1)], 0, 1, Some((3, 4)),
                      Running);
    actions, s := HandlerIsDelivered(i, actions, s);
    actions, s := PeriodEnds(i, actions, s);
  }

  lemma HandlerIsDelivered(i: State, before: seq<Action>, r: State) returns (actions: seq<Action>, s: State)
    requires Play(i, before) == Some(r) && r.handlers == map[] && r.armed == {2} && r.phase.Running?
    ensures Play(i, actions) == Some(s) && At(s, 0, Delivered) && s == r.(handlers := s.handlers)
  {
    assert Active(r) == {};
    actions, s := Then(i, before, Deliver(0, 2));
  }

  lemma PeriodEnds(i: State, before: seq<Action>, r: State) returns (actions: seq<Action>, s: State)
    requires Play(i, before) == Some(r) && r.phase.Running? && r.callers == map[] && r.counter == 0
    requires r.pipe == Some((3, 4)) && r.fds == map[3 := ReadEnd(1), 4 := WriteEnd(1)] && At(r, 0, Delivered)
    ensures Play(i, actions) == Some(s)
    ensures s.phase.Idle? && s.readfd < 0 && s.fds == map[] && At(s, 0, Delivered) && s.callers == map[] && s.pipe.None?
  {
    hide Play;
    actions, s := Then(i, before, BeginCleanup);
    actions, s := Then(i, actions, Restore(2, true));
    actions, s := Then(i, actions, Retire);
    actions, s := Then(i, actions, Drain);
    actions, s := PipeCloses(i, actions, s);
  }

  lemma PipeCloses(i: State, before: seq<Action>, r: State) returns (actions: seq<Action>, s: State)
    requires Play(i, before) == Some(r) && r.phase.Drained? && r.callers == map[]
    requires r.pipe == Some((3, 4)) && r.fds == map[3 := ReadEnd(1), 4 := WriteEnd(1)] && At(r, 0, Delivered)
    ensures Play(i, actions) == Some(s)
    ensures s.phase.Idle? && s.readfd < 0 && s.fds == map[] && At(s, 0, Delivered) && s.callers == map[] && s.pipe.None?
  {
    hide Play;
    actions, s := Then(i, before, ResetRead);
    actions, s := Then(i, actions, ResetSignal);
    actions, s := Then(i, actions, CloseRead);
    actions, s := Then(i, actions, CloseWrite);
  }

  lemma {:induction false} NoHandlerYet(fds: map<int, Object>, before: seq<Action>)
    requires Play(Init(fds), before).Some? && forall a <- before :: !a.Install?
    ensures var s := Play(Init(fds), before).value;
            s.armed == {} && s.handlers == map[] && s.bytes == 0
  {
    hide Apply, Enabled;
    if before != [] {
      var init, a := before[..|before| - 1], before[|before| - 1];
      NoHandlerYet(fds, init);
      assert a in before;
      NoHandlerStep(Play(Init(fds), init).value, a);
    }
  }

  lemma NoHandlerStep(s: State, a: Action)
    requires s.armed == {} && s.handlers == map[] && s.bytes == 0 && Enabled(s, a) && !a.Install?
    ensures Apply(s, a).armed == {} && Apply(s, a).handlers == map[] && Apply(s, a).bytes == 0
  {
  }

  /** Until a process first installs its handler, at the reset of its first period above all, nothing is stale. */
  lemma FirstPeriodIsFresh(fds: map<int, Object>, before: seq<Action>)
    requires Play(Init(fds), before).Some? && forall a <- before :: !a.Install?
    ensures !Stale(Play(Init(fds), before).value)
  {
    NoHandlerYet(fds, before);
  }
}
