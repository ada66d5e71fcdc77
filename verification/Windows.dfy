/** Window segmentation: the two worker loops of src/metrics.rs that cut samples into windows. */
module Windows {
  import opened Channels
  import opened Samples
  import opened Wrappers

  datatype Error = DeadlineOverflow | FileError

  /**
   What the environment of one worker run decides: the samples received until the channel is
   disconnected, the readings of the clock, which timed receives give up first, and the last
   instant the platform can represent.
   */
  datatype Trace = Trace(
    samples: seq<Metrics>,
    clock: nat -> nat,
    timedOut: nat -> bool,
    interval: nat,
    lastInstant: nat)

  function CheckedDeadline(t: Trace, now: nat): Option<nat> {
    if now + t.interval <= t.lastInstant then Some(now + t.interval) else None
  }

  predicate ContextChanges(window: seq<Metrics>, m: Metrics) {
    window != [] && window[0].context != m.context
  }

  // ---- The segmentation both loops must produce ----

  /** The windows cut, how many samples were written, and on an error which written ones no window holds. */
  datatype Plan = Plan(windows: seq<seq<Metrics>>, written: nat, lost: seq<Metrics>, error: Option<Error>)

  function Emit(window: seq<Metrics>, rest: Plan): Plan {
    if window == [] then rest else rest.(windows := [window] + rest.windows)
  }

  function Armed(deadline: Option<nat>): nat {
    if deadline.Some? then 1 else 0
  }

  /** The rest of a run that has received `i` samples, read the clock `k` times and timed `j` receives. */
  function Continue(t: Trace, fails: nat -> bool, i: nat, window: seq<Metrics>, deadline: Option<nat>, k: nat,
                    j: nat): Plan
    requires i <= |t.samples|
    ensures AllNonempty(Continue(t, fails, i, window, deadline, k, j).windows)
    decreases |t.samples| - i, Armed(deadline)
  {
    match deadline
    case Some(flushAt) =>
      if t.clock(k) >= flushAt then Emit(window, Continue(t, fails, i, [], None, k + 1, j))
      else if t.timedOut(j) then Emit(window, Continue(t, fails, i, [], None, k + 1, j + 1))
      else if i == |t.samples| then Emit(window, Plan([], i, [], None))
      else if fails(i) then Plan([], i, window, Some(FileError))
      else
        var m := t.samples[i];
        if ContextChanges(window, m) then
          Emit(window, match CheckedDeadline(t, t.clock(k + 1))
                       case None => Plan([], i + 1, [m], Some(DeadlineOverflow))
                       case Some(next) => Continue(t, fails, i + 1, [m], Some(next), k + 2, j + 1))
        else Continue(t, fails, i + 1, window + [m], deadline, k + 1, j + 1)
    case None =>
      if i == |t.samples| then Emit(window, Plan([], i, [], None))
      else if fails(i) then Plan([], i, window, Some(FileError))
      else
        var grown := window + [t.samples[i]];
        match CheckedDeadline(t, t.clock(k))
        case None => Plan([], i + 1, grown, Some(DeadlineOverflow))
        case Some(next) => Continue(t, fails, i + 1, grown, Some(next), k + 1, j)
  }

  const NEVER: nat -> bool := (_: nat) => false

  function Segments(t: Trace, fails: nat -> bool): (plan: Plan)
    ensures AllNonempty(plan.windows)
  {
    Continue(t, fails, 0, [], None, 0, 0)
  }

  // ---- The library loop ----

  /** The sending half of a `MetricsStream`: it accepts events until the consumer drops its half. */
  class EventSender {
    const accepts: nat
    var sent: seq<WindowMetrics>

    constructor (accepts: nat)
      ensures this.accepts == accepts && sent == []
    {
      this.accepts := accepts;
      sent := [];
    }

    method Send(event: WindowMetrics) returns (ok: bool)
      modifies this
      ensures ok == (|old(sent)| < accepts)
      ensures sent == if ok then old(sent) + [event] else old(sent)
    {
      ok := |sent| < accepts;
      if ok {
        sent := sent + [event];
      }
    }
  }

  method FlushWindowEvent(tx: EventSender, window: seq<Metrics>) returns (ok: bool, cleared: seq<Metrics>)
    modifies tx
    ensures cleared == []
    ensures window == [] ==> ok && tx.sent == old(tx.sent)
    ensures window != [] ==> ok == (|old(tx.sent)| < tx.accepts)
    ensures window != [] ==> tx.sent == if ok then old(tx.sent) + [Summary(window)] else old(tx.sent)
  {
    var summary := AggregateWindow(window);
    cleared := [];
    if summary.None? {
      return true, [];
    }
    ok := tx.Send(summary.value);
  }

  function Min(a: nat, b: nat): nat {
    if a < b then a else b
  }

  /** Where a loop stands: the windows already cut and the plan for the rest. */
  ghost predicate OnPlan(plan: Plan, done: seq<seq<Metrics>>, rest: Plan) {
    && AllNonempty(done)
    && plan == rest.(windows := done + rest.windows)
  }

  lemma StepOnPlan(plan: Plan, done: seq<seq<Metrics>>, window: seq<Metrics>, rest: Plan)
    requires OnPlan(plan, done, Emit(window, rest))
    ensures window == [] ==> OnPlan(plan, done, rest)
    ensures window != [] ==> OnPlan(plan, done + [window], rest)
    ensures window != [] ==> |done| < |plan.windows| && plan.windows[..|done| + 1] == done + [window]
  {
    if window != [] {
      assert done + ([window] + rest.windows) == (done + [window]) + rest.windows;
    }
  }

  lemma OnPlanStart(t: Trace, fails: nat -> bool)
    ensures OnPlan(Segments(t, fails), [], Continue(t, fails, 0, [], None, 0, 0)) && AllNonempty([])
            && Summaries([]) == []
  {
  }

  lemma OnPlanEnd(plan: Plan, done: seq<seq<Metrics>>, rest: Plan, accepts: nat)
    requires OnPlan(plan, done, rest) && rest.windows == [] && |done| <= accepts
    ensures AllNonempty(done) && plan == rest.(windows := done) && plan.windows[..Min(accepts, |plan.windows|)] == done
  {
  }

  lemma SummariesSnoc(done: seq<seq<Metrics>>, window: seq<Metrics>)
    requires AllNonempty(done) && window != []
    ensures AllNonempty(done + [window]) && Summaries(done + [window]) == Summaries(done) + [Summary(window)]
  {
    hide Summary;
  }

  /** After a flush: either the window is out and the loop is still on plan, or the consumer is gone. */
  lemma AfterFlush(plan: Plan, done: seq<seq<Metrics>>, window: seq<Metrics>, rest: Plan, accepts: nat)
    returns (now: seq<seq<Metrics>>)
    requires OnPlan(plan, done, Emit(window, rest)) && |done| <= accepts
    ensures AllNonempty(now)
    ensures window == [] ==> now == done
    ensures window != [] && |done| < accepts
            ==> now == done + [window] && Summaries(now) == Summaries(done) + [Summary(window)]
    ensures window == [] || |done| < accepts ==> OnPlan(plan, now, rest) && |now| <= accepts
    ensures window != [] && |done| == accepts
            ==> now == done && |done| < |plan.windows| && plan.windows[..accepts] == done
  {
    now := if window == [] || |done| == accepts then done else done + [window];
    StepOnPlan(plan, done, window, rest);
    if window != [] {
      SummariesSnoc(done, window);
    }
  }

  method ForwardWindowEvents(t: Trace, tx: EventSender) returns (result: Result<(), Error>)
    requires tx.sent == []
    modifies tx
    ensures var plan := Segments(t, NEVER);
            && tx.sent == Summaries(plan.windows[..Min(tx.accepts, |plan.windows|)])
            && result == if plan.error.Some? && |plan.windows| <= tx.accepts then Err(plan.error.value) else Ok(())
  {
    hide Summaries, Emit, OnPlan, Summary, AllNonempty;
    OnPlanStart(t, NEVER);
    var window: seq<Metrics>, deadline: Option<nat> := [], None;
    var i, k, j := 0, 0, 0;
    var ok: bool;
    ghost var plan := Segments(t, NEVER);
    ghost var done: seq<seq<Metrics>> := [];
    ghost var dropped := false;
    while true
      invariant !dropped && i <= |t.samples|
      invariant OnPlan(plan, done, Continue(t, NEVER, i, window, deadline, k, j))
      invariant AllNonempty(done) && tx.sent == Summaries(done) && |done| <= tx.accepts
      decreases |t.samples| - i, Armed(deadline)
    {
      match deadline
      case Some(flushAt) =>
        var now := t.clock(k);
        k := k + 1;
        if now >= flushAt {
          done := AfterFlush(plan, done, window, Continue(t, NEVER, i, [], None, k, j), tx.accepts);
          ok, window := FlushWindowEvent(tx, window);
          if !ok {
            dropped := true;
            break;
          }
          deadline := None;
          continue;
        }
        j := j + 1;
        if t.timedOut(j - 1) {
          done := AfterFlush(plan, done, window, Continue(t, NEVER, i, [], None, k, j), tx.accepts);
          ok, window := FlushWindowEvent(tx, window);
          if !ok {
            dropped := true;
            break;
          }
          deadline := None;
        } else if i == |t.samples| {
          break;
        } else {
          var metrics := t.samples[i];
          i := i + 1;
          if ContextChanges(window, metrics) {
            ghost var next := CheckedDeadline(t, t.clock(k));
            ghost var rest := if next.None? then Plan([], i, [metrics], Some(DeadlineOverflow))
                              else Continue(t, NEVER, i, [metrics], next, k + 1, j);
            done := AfterFlush(plan, done, window, rest, tx.accepts);
            ok, window := FlushWindowEvent(tx, window);
            if !ok {
              dropped := true;
              break;
            }
            deadline := CheckedDeadline(t, t.clock(k));
            k := k + 1;
            if deadline.None? {
              OnPlanEnd(plan, done, rest, tx.accepts);
              return Err(DeadlineOverflow);
            }
            assert window + [metrics] == [metrics];
          }
          window := window + [metrics];
        }
      case None =>
        if i == |t.samples| {
          break;
        }
        window := window + [t.samples[i]];
        i := i + 1;
        deadline := CheckedDeadline(t, t.clock(k));
        k := k + 1;
        if deadline.None? {
          OnPlanEnd(plan, done, Plan([], i, window, Some(DeadlineOverflow)), tx.accepts);
          return Err(DeadlineOverflow);
        }
    }
    if !dropped {
      done := AfterFlush(plan, done, window, Plan([], i, [], None), tx.accepts);
      if window == [] || |tx.sent| < tx.accepts {
        OnPlanEnd(plan, done, Plan([], i, [], None), tx.accepts);
      }
    }
    ok, window := FlushWindowEvent(tx, window);
    result := Ok(());
  }

  // ---- The Pushgateway loop ----

  /** A metrics file: the `n`-th write fails when `fails(n)`, and a failed write leaves no sample behind. */
  class MetricsFile {
    const fails: nat -> bool
    var written: seq<Metrics>

    constructor (fails: nat -> bool)
      ensures this.fails == fails && written == []
    {
      this.fails := fails;
      written := [];
    }

    method WriteInterval(m: Metrics) returns (ok: bool)
      modifies this
      ensures ok == !fails(|old(written)|)
      ensures written == if ok then old(written) + [m] else old(written)
    {
      ok := !fails(|written|);
      if ok {
        written := written + [m];
      }
    }
  }

  /** The sinks' optional file: without one, every write succeeds. */
  ghost function FileFails(file: MetricsFile?): nat -> bool {
    if file == null then NEVER else file.fails
  }

  /** Writes the `i`-th sample of a run whose earlier samples are all in the file. */
  method WriteMetricsFile(file: MetricsFile?, m: Metrics, ghost samples: seq<Metrics>, ghost i: nat) returns (ok: bool)
    requires i < |samples| && m == samples[i]
    requires file != null ==> file.written == samples[..i]
    modifies file
    ensures ok == !FileFails(file)(i)
    ensures file != null ==> file.written == samples[..if ok then i + 1 else i]
  {
    ok := true;
    if file != null {
      ok := file.WriteInterval(m);
    }
  }

  method FlushWindowMetrics(tx: Channel<WindowMetrics>, window: seq<Metrics>) returns (cleared: seq<Metrics>)
    requires tx.connected && tx.capacity.None?
    modifies tx`queue
    ensures cleared == []
    ensures tx.queue == if window == [] then old(tx.queue) else old(tx.queue) + [Summary(window)]
  {
    var summary := AggregateWindow(window);
    if summary.None? {
      return [];
    }
    EnqueueLatest(tx, false, summary.value);
    return [];
  }

  /** Delivery keeps its receiver until the loop's sender is gone, so the channel stays connected here. */
  method PushWindowMetrics(t: Trace, file: MetricsFile?, tx: Channel<WindowMetrics>) returns (result: Result<(), Error>)
    requires tx.connected && tx.capacity.None? && tx.queue == []
    requires file != null ==> file.written == []
    modifies tx`queue, file
    ensures var plan := Segments(t, FileFails(file));
            && tx.queue == Summaries(plan.windows)
            && (file != null ==> plan.written <= |t.samples| && file.written == t.samples[..plan.written])
            && result == if plan.error.Some? then Err(plan.error.value) else Ok(())
  {
    hide Summaries, Emit, OnPlan, Summary, FileFails, AllNonempty;
    ghost var fails := FileFails(file);
    OnPlanStart(t, fails);
    var window: seq<Metrics>, deadline: Option<nat> := [], None;
    var i, k, j := 0, 0, 0;
    result := Ok(());
    var ok: bool;
    ghost var plan := Segments(t, fails);
    ghost var done: seq<seq<Metrics>> := [];
    ghost var end := plan;
    while true
      invariant i <= |t.samples| && result.Ok?
      invariant OnPlan(plan, done, Continue(t, fails, i, window, deadline, k, j))
      invariant AllNonempty(done) && tx.queue == Summaries(done)
      invariant file != null ==> file.written == t.samples[..i]
      decreases |t.samples| - i, Armed(deadline)
    {
      match deadline
      case Some(flushAt) =>
        var now := t.clock(k);
        k := k + 1;
        if now >= flushAt {
          done := Flushed(plan, done, window, Continue(t, fails, i, [], None, k, j));
          window := FlushWindowMetrics(tx, window);
          deadline := None;
          continue;
        }
        j := j + 1;
        if t.timedOut(j - 1) {
          done := Flushed(plan, done, window, Continue(t, fails, i, [], None, k, j));
          window := FlushWindowMetrics(tx, window);
          deadline := None;
        } else if i == |t.samples| {
          break;
        } else {
          var metrics := t.samples[i];
          ok := WriteMetricsFile(file, metrics, t.samples, i);
          if !ok {
            result := Err(FileError);
            OnPlanEnd(plan, done, Plan([], i, window, Some(FileError)), |done|);
            break;
          }
          i := i + 1;
          if ContextChanges(window, metrics) {
            ghost var next := CheckedDeadline(t, t.clock(k));
            ghost var rest := if next.None? then Plan([], i, [metrics], Some(DeadlineOverflow))
                              else Continue(t, fails, i, [metrics], next, k + 1, j);
            done := Flushed(plan, done, window, rest);
            window := FlushWindowMetrics(tx, window);
            deadline := CheckedDeadline(t, t.clock(k));
            k := k + 1;
            if deadline.None? {
              OnPlanEnd(plan, done, rest, |done|);
              return Err(DeadlineOverflow);
            }
            assert window + [metrics] == [metrics];
          }
          window := window + [metrics];
        }
      case None =>
        if i == |t.samples| {
          break;
        }
        ok := WriteMetricsFile(file, t.samples[i], t.samples, i);
        if !ok {
          result := Err(FileError);
          OnPlanEnd(plan, done, Plan([], i, window, Some(FileError)), |done|);
          break;
        }
        window := window + [t.samples[i]];
        i := i + 1;
        deadline := CheckedDeadline(t, t.clock(k));
        k := k + 1;
        if deadline.None? {
          OnPlanEnd(plan, done, Plan([], i, window, Some(DeadlineOverflow)), |done|);
          return Err(DeadlineOverflow);
        }
    }
    if result.Ok? {
      done := Flushed(plan, done, window, Plan([], i, [], None));
      OnPlanEnd(plan, done, Plan([], i, [], None), |done|);
      window := FlushWindowMetrics(tx, window);
    }
  }

  lemma Flushed(plan: Plan, done: seq<seq<Metrics>>, window: seq<Metrics>, rest: Plan) returns (now: seq<seq<Metrics>>)
    requires OnPlan(plan, done, Emit(window, rest))
    ensures OnPlan(plan, now, rest) && AllNonempty(now)
    ensures Summaries(now) == if window == [] then Summaries(done) else Summaries(done) + [Summary(window)]
  {
    now := AfterFlush(plan, done, window, rest, |done| + 1);
  }

  // ---- What the plan is worth ----

  predicate Uniform(window: seq<Metrics>) {
    forall i | 0 <= i < |window| :: window[i].context == window[0].context
  }

  predicate AllUniform(windows: seq<seq<Metrics>>) {
    forall i | 0 <= i < |windows| :: Uniform(windows[i])
  }

  lemma {:induction false} FlattenPrepend<T>(first: seq<T>, rest: seq<seq<T>>)
    ensures Flatten([first] + rest) == first + Flatten(rest)
  {
    if rest == [] {
      assert [first][..0] == [];
      assert [first] + rest == [first];
    } else {
      var init := rest[..|rest| - 1];
      FlattenPrepend(first, init);
      assert ([first] + rest)[..|rest|] == [first] + init;
    }
  }

  /** No sample is dropped, repeated or reordered: windows, then what an error lost, are the samples written. */
  ghost predicate Accounts(t: Trace, i: nat, window: seq<Metrics>, plan: Plan) {
    && i <= plan.written <= |t.samples|
    && Flatten(plan.windows) + plan.lost == window + t.samples[i..plan.written]
    && AllUniform(plan.windows)
    && (plan.error.None? ==> plan.written == |t.samples| && plan.lost == [])
  }

  lemma EmitAccounts(t: Trace, i: nat, window: seq<Metrics>, next: seq<Metrics>, rest: Plan, from: nat)
    requires from <= i <= |t.samples| && next == t.samples[from..i] && Uniform(window)
    requires Accounts(t, i, next, rest)
    ensures Accounts(t, from, window, Emit(window, rest))
  {
    FlattenPrepend(window, rest.windows);
    assert t.samples[from..i] + t.samples[i..rest.written] == t.samples[from..rest.written];
    if window != [] {
      var fs := Flatten(rest.windows);
      assert window + fs + rest.lost == window + (fs + rest.lost);
    }
  }

  lemma {:induction false} PlanAccounts(t: Trace, fails: nat -> bool, i: nat, window: seq<Metrics>,
                                        deadline: Option<nat>, k: nat, j: nat)
    requires i <= |t.samples| && Uniform(window) && (deadline.None? ==> window == [])
    ensures Accounts(t, i, window, Continue(t, fails, i, window, deadline, k, j))
    decreases |t.samples| - i, Armed(deadline)
  {
    hide Accounts, Emit;
    match deadline
    case Some(flushAt) =>
      if t.clock(k) >= flushAt {
        PlanAccounts(t, fails, i, [], None, k + 1, j);
        EmitAccounts(t, i, window, [], Continue(t, fails, i, [], None, k + 1, j), i);
      } else if t.timedOut(j) {
        PlanAccounts(t, fails, i, [], None, k + 1, j + 1);
        EmitAccounts(t, i, window, [], Continue(t, fails, i, [], None, k + 1, j + 1), i);
      } else if i == |t.samples| {
        StopAccounts(t, i, [], None);
        EmitAccounts(t, i, window, [], Plan([], i, [], None), i);
      } else if fails(i) {
        StopAccounts(t, i, window, Some(FileError));
      } else {
        var m := t.samples[i];
        if ContextChanges(window, m) {
          match CheckedDeadline(t, t.clock(k + 1))
          case None =>
            StopAccounts(t, i + 1, [m], Some(DeadlineOverflow));
            EmitAccounts(t, i + 1, window, [m], Plan([], i + 1, [m], Some(DeadlineOverflow)), i);
          case Some(next) =>
            PlanAccounts(t, fails, i + 1, [m], Some(next), k + 2, j + 1);
            EmitAccounts(t, i + 1, window, [m], Continue(t, fails, i + 1, [m], Some(next), k + 2, j + 1), i);
        } else {
          PlanAccounts(t, fails, i + 1, window + [m], deadline, k + 1, j + 1);
          GrowAccounts(t, i, window, Continue(t, fails, i + 1, window + [m], deadline, k + 1, j + 1));
        }
      }
    case None =>
      if i == |t.samples| {
        StopAccounts(t, i, [], None);
        EmitAccounts(t, i, window, [], Plan([], i, [], None), i);
      } else if fails(i) {
        StopAccounts(t, i, window, Some(FileError));
      } else {
        var grown := window + [t.samples[i]];
        match CheckedDeadline(t, t.clock(k))
        case None =>
          StopAccounts(t, i + 1, grown, Some(DeadlineOverflow));
          GrowAccounts(t, i, window, Plan([], i + 1, grown, Some(DeadlineOverflow)));
        case Some(next) =>
          PlanAccounts(t, fails, i + 1, grown, Some(next), k + 1, j);
          GrowAccounts(t, i, window, Continue(t, fails, i + 1, grown, Some(next), k + 1, j));
      }
  }

  lemma StopAccounts(t: Trace, i: nat, window: seq<Metrics>, error: Option<Error>)
    requires i <= |t.samples| && (error.None? ==> i == |t.samples| && window == [])
    ensures Accounts(t, i, window, Plan([], i, window, error))
  {
  }

  lemma GrowAccounts(t: Trace, i: nat, window: seq<Metrics>, rest: Plan)
    requires i < |t.samples| && Accounts(t, i + 1, window + [t.samples[i]], rest)
    ensures Accounts(t, i, window, rest)
  {
    assert t.samples[i..rest.written] == [t.samples[i]] + t.samples[i + 1..rest.written];
  }

  /** Main result: the windows, in order, are the samples received; an error loses only the window being filled. */
  lemma WindowsAreTheSamples(t: Trace, fails: nat -> bool)
    ensures var plan := Segments(t, fails);
            && AllNonempty(plan.windows) && AllUniform(plan.windows)
            && plan.written <= |t.samples|
            && Flatten(plan.windows) + plan.lost == t.samples[..plan.written]
            && (plan.error.None? ==> Flatten(plan.windows) == t.samples)
  {
    PlanAccounts(t, fails, 0, [], None, 0, 0);
    var plan := Segments(t, fails);
    assert [] + t.samples[0..plan.written] == t.samples[..plan.written];
    if plan.error.None? {
      assert Flatten(plan.windows) + [] == Flatten(plan.windows);
      assert t.samples[..|t.samples|] == t.samples;
    }
  }

  /** Without an error, what the windows report adds up to the sanitised sums over every sample. */
  lemma NothingIsCountedTwice(t: Trace, fails: nat -> bool)
    requires Segments(t, fails).error.None?
    ensures EmittedTotals(Summaries(Segments(t, fails).windows)) == SampleTotals(t.samples)
  {
    WindowsAreTheSamples(t, fails);
    TotalsAreConserved(Segments(t, fails).windows);
  }

  /** No reading of the clock comes so late that a deadline from it cannot be represented. */
  ghost predicate DeadlinesFit(t: Trace) {
    forall k: nat :: t.clock(k) + t.interval <= t.lastInstant
  }

  lemma {:induction false} ErrorNeedsACause(t: Trace, fails: nat -> bool, i: nat, window: seq<Metrics>,
                                            deadline: Option<nat>, k: nat, j: nat)
    requires i <= |t.samples| && DeadlinesFit(t)
    ensures var plan := Continue(t, fails, i, window, deadline, k, j);
            && i <= plan.written <= |t.samples|
            && (forall n | i <= n < plan.written :: !fails(n))
            && (if plan.written < |t.samples| then fails(plan.written) && plan.error == Some(FileError)
                else plan.error == None)
    decreases |t.samples| - i, Armed(deadline)
  {
    hide ContextChanges;
    match deadline
    case Some(flushAt) =>
      if t.clock(k) >= flushAt {
        ErrorNeedsACause(t, fails, i, [], None, k + 1, j);
      } else if t.timedOut(j) {
        ErrorNeedsACause(t, fails, i, [], None, k + 1, j + 1);
      } else if i < |t.samples| && !fails(i) {
        var m := t.samples[i];
        if ContextChanges(window, m) {
          ErrorNeedsACause(t, fails, i + 1, [m], CheckedDeadline(t, t.clock(k + 1)), k + 2, j + 1);
        } else {
          ErrorNeedsACause(t, fails, i + 1, window + [m], deadline, k + 1, j + 1);
        }
      }
    case None =>
      if i < |t.samples| && !fails(i) {
        ErrorNeedsACause(t, fails, i + 1, window + [t.samples[i]], CheckedDeadline(t, t.clock(k)), k + 1, j);
      }
  }

  /** Main result: the file holds every sample up to the first write that fails, and the loop errs exactly then. */
  lemma FileHoldsSamplesUpToFirstError(t: Trace, fails: nat -> bool)
    requires DeadlinesFit(t)
    ensures var plan := Segments(t, fails);
            && plan.written <= |t.samples|
            && (forall n | 0 <= n < plan.written :: !fails(n))
            && (plan.written < |t.samples| ==> fails(plan.written))
            && (plan.error == None <==> forall n | 0 <= n < |t.samples| :: !fails(n))
  {
    ErrorNeedsACause(t, fails, 0, [], None, 0, 0);
  }

  lemma {:induction false} FailsOnlyWhereAsked(t: Trace, fails: nat -> bool, i: nat, window: seq<Metrics>,
                                               deadline: Option<nat>, k: nat, j: nat)
    requires i <= |t.samples| && forall n | i <= n < |t.samples| :: !fails(n)
    ensures Continue(t, fails, i, window, deadline, k, j) == Continue(t, NEVER, i, window, deadline, k, j)
    decreases |t.samples| - i, Armed(deadline)
  {
    hide ContextChanges;
    match deadline
    case Some(flushAt) =>
      if t.clock(k) >= flushAt {
        FailsOnlyWhereAsked(t, fails, i, [], None, k + 1, j);
      } else if t.timedOut(j) {
        FailsOnlyWhereAsked(t, fails, i, [], None, k + 1, j + 1);
      } else if i < |t.samples| {
        var m := t.samples[i];
        var next := CheckedDeadline(t, t.clock(k + 1));
        if !ContextChanges(window, m) {
          FailsOnlyWhereAsked(t, fails, i + 1, window + [m], deadline, k + 1, j + 1);
        } else if next.Some? {
          FailsOnlyWhereAsked(t, fails, i + 1, [m], next, k + 2, j + 1);
        }
      }
    case None =>
      if i < |t.samples| {
        var next := CheckedDeadline(t, t.clock(k));
        if next.Some? {
          FailsOnlyWhereAsked(t, fails, i + 1, window + [t.samples[i]], next, k + 1, j);
        }
      }
  }

  /** Main result: while no write fails, the loop with a file cuts exactly the windows of the loop without one. */
  lemma BothLoopsCutAlike(t: Trace, fails: nat -> bool)
    requires forall n | 0 <= n < |t.samples| :: !fails(n)
    ensures Segments(t, fails) == Segments(t, NEVER)
  {
    FailsOnlyWhereAsked(t, fails, 0, [], None, 0, 0);
  }

  // ---- Where windows are cut when time plays no part ----

  /** The samples grouped into maximal runs of one context. */
  function Runs(samples: seq<Metrics>): (runs: seq<seq<Metrics>>)
    ensures samples != [] ==> runs != []
  {
    if |samples| <= 1 then (if samples == [] then [] else [samples])
    else
      var rest := Runs(samples[1..]);
      if samples[0].context == samples[1].context then [[samples[0]] + rest[0]] + rest[1..]
      else [[samples[0]]] + rest
  }

  lemma {:induction false} RunEnds(window: seq<Metrics>, rest: seq<Metrics>)
    requires window != [] && Uniform(window)
    requires rest != [] ==> rest[0].context != window[0].context
    ensures Runs(window + rest) == [window] + Runs(rest)
  {
    if |window| == 1 {
      if rest == [] {
        assert window + rest == window;
      } else {
        assert (window + rest)[1..] == rest && (window + rest)[1] == rest[0];
        assert [window[0]] == window;
      }
    } else {
      var tail := window[1..];
      assert forall i | 0 <= i < |tail| :: tail[i] == window[i + 1];
      RunEnds(tail, rest);
      assert (window + rest)[1..] == tail + rest;
      assert [window[0]] + tail == window;
    }
  }

  /** No receive times out, and the whole run fits inside one interval. */
  ghost predicate Quiet(t: Trace) {
    && (forall j: nat :: !t.timedOut(j))
    && (forall a: nat, b: nat :: t.clock(a) < t.clock(b) + t.interval)
  }

  /** One step of a quiet run: the window ends, is cut by a sample of another context, or grows. */
  lemma QuietStep(t: Trace, i: nat, window: seq<Metrics>, start: nat, k: nat, j: nat)
    requires i <= |t.samples| && DeadlinesFit(t) && Quiet(t) && window != []
    ensures var plan := Continue(t, NEVER, i, window, Some(t.clock(start) + t.interval), k, j);
            if i == |t.samples| then plan.windows == [window]
            else if ContextChanges(window, t.samples[i]) then
              var next := Some(t.clock(k + 1) + t.interval);
              plan.windows == [window] + Continue(t, NEVER, i + 1, [t.samples[i]], next, k + 2, j + 1).windows
            else
              var deadline := Some(t.clock(start) + t.interval);
              plan == Continue(t, NEVER, i + 1, window + [t.samples[i]], deadline, k + 1, j + 1)
  {
    hide ContextChanges;
    assert t.clock(k) < t.clock(start) + t.interval && !t.timedOut(j);
    assert t.clock(k + 1) + t.interval <= t.lastInstant;
  }

  lemma {:induction false} QuietContinue(t: Trace, i: nat, window: seq<Metrics>, start: nat, k: nat, j: nat)
    requires i <= |t.samples| && DeadlinesFit(t) && Quiet(t) && window != [] && Uniform(window)
    ensures Continue(t, NEVER, i, window, Some(t.clock(start) + t.interval), k, j).windows
            == Runs(window + t.samples[i..])
    decreases |t.samples| - i
  {
    hide Runs, Continue, Quiet, DeadlinesFit;
    QuietStep(t, i, window, start, k, j);
    if i == |t.samples| {
      RunEnds(window, []);
      NoRuns();
      assert t.samples[i..] == [] && [window] + [] == [window];
    } else {
      var m := t.samples[i];
      assert t.samples[i..] == [m] + t.samples[i + 1..];
      if ContextChanges(window, m) {
        QuietContinue(t, i + 1, [m], k + 1, k + 2, j + 1);
        RunEnds(window, t.samples[i..]);
      } else {
        QuietContinue(t, i + 1, window + [m], start, k + 1, j + 1);
        assert window + [m] + t.samples[i + 1..] == window + t.samples[i..];
      }
    }
  }

  lemma NoRuns()
    ensures Runs([]) == []
  {
  }

  /** Main result: with time out of the way, windows are exactly the maximal runs of one context. */
  lemma QuietWindowsAreRuns(t: Trace)
    requires DeadlinesFit(t) && Quiet(t)
    ensures Segments(t, NEVER).windows == Runs(t.samples)
  {
    if t.samples != [] {
      var first := [t.samples[0]];
      QuietContinue(t, 1, first, 0, 1, 0);
      assert first + t.samples[1..] == t.samples;
      assert [] + first == first;
    }
  }

  // ---- When time cuts a window ----

  /** Why a window ended: the clock at its deadline, a receive that gave up, a sample of another context, or the end. */
  datatype Reason = Deadline(reading: nat) | GaveUp(receive: nat) | NewContext | Closed

  /**
   A window and its readings of the clock: the one its deadline was counted from, then the one before each later sample
   was received.
   */
  datatype Cut = Cut(window: seq<Metrics>, readings: seq<nat>, reason: Reason)

  /** The rest of a run with the readings and the reasons; an open window has its deadline from its first reading. */
  function Cuts(t: Trace, fails: nat -> bool, i: nat, window: seq<Metrics>, readings: seq<nat>, k: nat,
                j: nat): seq<Cut>
    requires i <= |t.samples| && |readings| == |window|
    decreases |t.samples| - i, |window|
  {
    if window == [] then
      if i == |t.samples| || fails(i) || CheckedDeadline(t, t.clock(k)).None? then []
      else Cuts(t, fails, i + 1, [t.samples[i]], [k], k + 1, j)
    else if t.clock(k) >= t.clock(readings[0]) + t.interval then
      [Cut(window, readings, Deadline(k))] + Cuts(t, fails, i, [], [], k + 1, j)
    else if t.timedOut(j) then [Cut(window, readings, GaveUp(j))] + Cuts(t, fails, i, [], [], k + 1, j + 1)
    else if i == |t.samples| then [Cut(window, readings, Closed)]
    else if fails(i) then []
    else if ContextChanges(window, t.samples[i]) then
      [Cut(window, readings, NewContext)]
      + if CheckedDeadline(t, t.clock(k + 1)).None? then []
        else Cuts(t, fails, i + 1, [t.samples[i]], [k + 1], k + 2, j + 1)
    else Cuts(t, fails, i + 1, window + [t.samples[i]], readings + [k], k + 1, j + 1)
  }

  function WindowsOf(cuts: seq<Cut>): seq<seq<Metrics>> {
    if cuts == [] then [] else [cuts[0].window] + WindowsOf(cuts[1..])
  }

  lemma WindowsOfCons(cut: Cut, cuts: seq<Cut>)
    ensures WindowsOf([cut] + cuts) == [cut.window] + WindowsOf(cuts)
  {
    assert ([cut] + cuts)[1..] == cuts;
  }

  lemma {:induction false} CutsAreTheWindows(t: Trace, fails: nat -> bool, i: nat, window: seq<Metrics>,
                                             readings: seq<nat>, k: nat, j: nat)
    requires i <= |t.samples| && |readings| == |window|
    ensures var deadline := if window == [] then None else Some(t.clock(readings[0]) + t.interval);
            WindowsOf(Cuts(t, fails, i, window, readings, k, j))
                == Continue(t, fails, i, window, deadline, k, j).windows
    decreases |t.samples| - i, |window|
  {
    hide ContextChanges, WindowsOf;
    NoWindows();
    if window == [] {
      if i < |t.samples| && !fails(i) && CheckedDeadline(t, t.clock(k)).Some? {
        CutsAreTheWindows(t, fails, i + 1, [t.samples[i]], [k], k + 1, j);
        assert window + [t.samples[i]] == [t.samples[i]];
      }
    } else if t.clock(k) >= t.clock(readings[0]) + t.interval {
      CutsAreTheWindows(t, fails, i, [], [], k + 1, j);
      WindowsOfCons(Cut(window, readings, Deadline(k)), Cuts(t, fails, i, [], [], k + 1, j));
    } else if t.timedOut(j) {
      CutsAreTheWindows(t, fails, i, [], [], k + 1, j + 1);
      WindowsOfCons(Cut(window, readings, GaveUp(j)), Cuts(t, fails, i, [], [], k + 1, j + 1));
    } else if i == |t.samples| {
      WindowsOfCons(Cut(window, readings, Closed), []);
      assert [Cut(window, readings, Closed)] + [] == [Cut(window, readings, Closed)];
    } else if !fails(i) {
      var m := t.samples[i];
      if ContextChanges(window, m) {
        WindowsOfCons(Cut(window, readings, NewContext), []);
        if CheckedDeadline(t, t.clock(k + 1)).Some? {
          CutsAreTheWindows(t, fails, i + 1, [m], [k + 1], k + 2, j + 1);
          WindowsOfCons(Cut(window, readings, NewContext), Cuts(t, fails, i + 1, [m], [k + 1], k + 2, j + 1));
        }
      } else {
        CutsAreTheWindows(t, fails, i + 1, window + [m], readings + [k], k + 1, j + 1);
      }
    }
  }

  lemma NoWindows()
    ensures WindowsOf([]) == []
  {
  }

  /** The readings of a window so far, `k` being the next: all but the first came before the deadline. */
  ghost predicate InTime(t: Trace, window: seq<Metrics>, readings: seq<nat>, k: nat) {
    && |readings| == |window|
    && (forall p, q | 0 <= p < q < |readings| :: readings[p] < readings[q])
    && (forall p | 0 <= p < |readings| :: readings[p] < k)
    && (forall p | 0 < p < |readings| :: t.clock(readings[p]) < t.clock(readings[0]) + t.interval)
    && (readings != [] ==> t.clock(readings[0]) + t.interval <= t.lastInstant)
  }

  /** Every sample of the window but the first was received before the deadline, and time ended it only at or after. */
  ghost predicate WellTimed(t: Trace, cut: Cut) {
    && cut.window != [] && |cut.readings| == |cut.window|
    && (forall p, q | 0 <= p < q < |cut.readings| :: cut.readings[p] < cut.readings[q])
    && (forall p | 0 < p < |cut.readings| :: t.clock(cut.readings[p]) < t.clock(cut.readings[0]) + t.interval)
    && t.clock(cut.readings[0]) + t.interval <= t.lastInstant
    && (cut.reason.Deadline? ==>
          && cut.readings[|cut.readings| - 1] < cut.reason.reading
          && t.clock(cut.reason.reading) >= t.clock(cut.readings[0]) + t.interval)
    && (cut.reason.GaveUp? ==> t.timedOut(cut.reason.receive))
  }

  /** What one window's end says of the next. */
  predicate Follows(cut: Cut, next: Cut)
    requires cut.window != [] && next.window != [] && cut.readings != [] && next.readings != []
  {
    && !cut.reason.Closed?
    && (cut.reason.NewContext? ==> next.window[0].context != cut.window[0].context)
    && cut.readings[|cut.readings| - 1] < next.readings[0]
  }

  ghost predicate AllWellTimed(t: Trace, cuts: seq<Cut>) {
    && (forall c | 0 <= c < |cuts| :: WellTimed(t, cuts[c]))
    && (forall c | 0 <= c < |cuts| - 1 :: Follows(cuts[c], cuts[c + 1]))
  }

  /** The next window is the one now open, or opens later. */
  ghost predicate Opens(cuts: seq<Cut>, window: seq<Metrics>, readings: seq<nat>, k: nat) {
    cuts != [] ==>
      && (window == [] ==> cuts[0].readings != [] && k <= cuts[0].readings[0])
      && (window != [] ==> window <= cuts[0].window && readings <= cuts[0].readings)
  }

  lemma CutThen(t: Trace, cut: Cut, cuts: seq<Cut>, window: seq<Metrics>, readings: seq<nat>, k: nat)
    requires AllWellTimed(t, cuts) && WellTimed(t, cut) && |readings| == |window|
    requires Opens(cuts, window, readings, k) && !cut.reason.Closed?
    requires cut.readings[|cut.readings| - 1] < if window == [] then k else readings[0]
    requires cut.reason.NewContext? ==> window != [] && window[0].context != cut.window[0].context
    ensures AllWellTimed(t, [cut] + cuts)
  {
    var more := [cut] + cuts;
    forall c | 0 <= c < |more| - 1 ensures Follows(more[c], more[c + 1]) {
      if c > 0 {
        assert more[c] == cuts[c - 1] && more[c + 1] == cuts[c];
      }
    }
  }

  lemma OpenWindow(t: Trace, window: seq<Metrics>, readings: seq<nat>, k: nat, m: Metrics)
    ensures t.clock(k) + t.interval <= t.lastInstant ==> InTime(t, [m], [k], k + 1)
    ensures InTime(t, window, readings, k) && window != [] && t.clock(k) < t.clock(readings[0]) + t.interval
            ==> InTime(t, window + [m], readings + [k], k + 1)
  {
  }

  lemma ClosedInTime(t: Trace, window: seq<Metrics>, readings: seq<nat>, k: nat, reason: Reason)
    requires InTime(t, window, readings, k) && window != []
    requires reason.Deadline? ==> reason.reading == k && t.clock(k) >= t.clock(readings[0]) + t.interval
    requires reason.GaveUp? ==> t.timedOut(reason.receive)
    ensures WellTimed(t, Cut(window, readings, reason)) && readings[|readings| - 1] < k
    ensures forall cuts :: Opens([Cut(window, readings, reason)] + cuts, window, readings, k)
  {
  }

  lemma Opened(cuts: seq<Cut>, window: seq<Metrics>, readings: seq<nat>, m: Metrics, k: nat)
    requires Opens(cuts, window + [m], readings + [k], k + 1) && |readings| == |window|
    ensures Opens(cuts, window, readings, k)
  {
  }

  lemma {:induction false} CutsAreTimed(t: Trace, fails: nat -> bool, i: nat, window: seq<Metrics>, readings: seq<nat>,
                                        k: nat, j: nat)
    requires i <= |t.samples| && InTime(t, window, readings, k)
    ensures var cuts := Cuts(t, fails, i, window, readings, k, j);
            AllWellTimed(t, cuts) && Opens(cuts, window, readings, k)
    decreases |t.samples| - i, |window|
  {
    hide AllWellTimed, WellTimed, ContextChanges, InTime, Opens;
    NothingTimed(t, window, readings, k);
    InTimeMeans(t, window, readings, k);
    if window == [] {
      if i < |t.samples| && !fails(i) && CheckedDeadline(t, t.clock(k)).Some? {
        var m := t.samples[i];
        OpenWindow(t, window, readings, k, m);
        CutsAreTimed(t, fails, i + 1, [m], [k], k + 1, j);
        assert [] + [m] == [m] && [] + [k] == [k];
        Opened(Cuts(t, fails, i + 1, [m], [k], k + 1, j), [], [], m, k);
      }
    } else if t.clock(k) >= t.clock(readings[0]) + t.interval {
      ClosedInTime(t, window, readings, k, Deadline(k));
      CutsAreTimed(t, fails, i, [], [], k + 1, j);
      CutThen(t, Cut(window, readings, Deadline(k)), Cuts(t, fails, i, [], [], k + 1, j), [], [], k + 1);
    } else if t.timedOut(j) {
      ClosedInTime(t, window, readings, k, GaveUp(j));
      CutsAreTimed(t, fails, i, [], [], k + 1, j + 1);
      CutThen(t, Cut(window, readings, GaveUp(j)), Cuts(t, fails, i, [], [], k + 1, j + 1), [], [], k + 1);
    } else if i == |t.samples| {
      ClosedInTime(t, window, readings, k, Closed);
      OneTimed(t, Cut(window, readings, Closed));
    } else if !fails(i) {
      var m := t.samples[i];
      if ContextChanges(window, m) {
        ClosedInTime(t, window, readings, k, NewContext);
        ContextChangesMeans(window, m);
        OneTimed(t, Cut(window, readings, NewContext));
        if CheckedDeadline(t, t.clock(k + 1)).Some? {
          OpenWindow(t, [], [], k + 1, m);
          CutsAreTimed(t, fails, i + 1, [m], [k + 1], k + 2, j + 1);
          var rest := Cuts(t, fails, i + 1, [m], [k + 1], k + 2, j + 1);
          CutThen(t, Cut(window, readings, NewContext), rest, [m], [k + 1], k + 2);
        }
      } else {
        OpenWindow(t, window, readings, k, m);
        CutsAreTimed(t, fails, i + 1, window + [m], readings + [k], k + 1, j + 1);
        Opened(Cuts(t, fails, i + 1, window + [m], readings + [k], k + 1, j + 1), window, readings, m, k);
      }
    }
  }

  lemma ContextChangesMeans(window: seq<Metrics>, m: Metrics)
    requires ContextChanges(window, m)
    ensures window != [] && m.context != window[0].context
  {
  }

  lemma InTimeMeans(t: Trace, window: seq<Metrics>, readings: seq<nat>, k: nat)
    requires InTime(t, window, readings, k)
    ensures |readings| == |window|
  {
  }

  lemma NothingTimed(t: Trace, window: seq<Metrics>, readings: seq<nat>, k: nat)
    ensures AllWellTimed(t, []) && Opens([], window, readings, k) && InTime(t, [], [], k + 1)
  {
  }

  lemma OneTimed(t: Trace, cut: Cut)
    requires WellTimed(t, cut)
    ensures AllWellTimed(t, [cut]) && [cut] + [] == [cut]
  {
  }

  /**
   Main result on time: the windows of a run are cut with a reason each. All samples of a window but its first were
   received at readings of the clock below the window's deadline, which is one interval after the reading it was armed
   at; a window that time ended was ended by a later reading that had reached the deadline, or by a receive that gave
   up.
   */
  lemma WindowsAreInTime(t: Trace, fails: nat -> bool)
    ensures var cuts := Cuts(t, fails, 0, [], [], 0, 0);
            WindowsOf(cuts) == Segments(t, fails).windows && AllWellTimed(t, cuts)
  {
    CutsAreTheWindows(t, fails, 0, [], [], 0, 0);
    CutsAreTimed(t, fails, 0, [], [], 0, 0);
  }
}
