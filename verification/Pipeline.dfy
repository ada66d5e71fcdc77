/**
 The live metrics pipeline of src/metrics.rs as interleaved atomic steps: the libiperf callback,
 the processing worker of `run_metrics_sinks`, and the delivery thread.

 A sample is named by its production number. Everything a schedule, a clock, a file system or an
 HTTP server may decide is in the action taken.
 */
module Pipeline {
  import opened Channels
  import opened Texts
  import opened Wrappers

  datatype Delivery = NoPush | Immediate | Windowed

  datatype Config = Config(file: bool, push: Delivery, deleteOnFinish: bool) {
    /** `MetricsSinks::queue`: the policy of the raw queue between callback and worker. */
    function RawPolicy(): QueuePolicy {
      if file || push == Windowed then All else Latest
    }

    /** `PushGatewaySink::delivery_queue`: the policy of the queue between worker and delivery. */
    function PushPolicy(): QueuePolicy {
      if push == Windowed then All else Latest
    }
  }

  datatype Event = Interval(n: nat) | Window(ns: seq<nat>) {
    function Numbers(): seq<nat> {
      if Interval? then [n] else ns
    }
  }

  datatype Callback = Idle | First(n: nat) | Evict(n: nat) | Second(n: nat)

  datatype Worker =
    | Receiving
    | Holding(n: nat)                       // received, not yet written to the file
    | Written(n: nat)                       // written, not yet handed on
    | Trying(event: Event, final: bool)     // first try_send; final: the flush after disconnection
    | Evicting(event: Event, final: bool)
    | Retrying(event: Event, final: bool)
    | Stopping                              // the loop has ended
    | Joining                               // receiver and sender dropped, waiting for delivery
    | Returned

  datatype Deliverer = Waiting | Pushing(event: Event) | Deleting | Done

  datatype SinkCall = Put(event: Event) | Delete

  datatype State = State(
    produced: nat,
    open: bool,             // the callback target still exists
    callback: Callback,
    raw: seq<nat>,
    worker: Worker,
    failed: bool,           // a file write failed or a deadline overflowed
    file: seq<nat>,
    window: seq<nat>,
    pushq: seq<Event>,
    deliverer: Deliverer,
    calls: seq<SinkCall>)
  {
    predicate WorkerGone() {
      worker.Joining? || worker.Returned?
    }
  }

  datatype Action =
    | Produce | CallbackTry | CallbackEvict | CallbackRetry | Close
    | Receive | Write(ok: bool) | Handle(cut: bool) | Flush | Overflow
    | WorkerTry | WorkerEvict | WorkerRetry | Finish | HangUp | Join
    | Take | PutReturns | DeleteReturns | Quit

  function Init(c: Config): State {
    State(0, true, Idle, [], Receiving, false, [], [], [], if c.push == NoPush then Done else Waiting, [])
  }

  predicate Room<T>(policy: QueuePolicy, queue: seq<T>) {
    policy == All || queue == []
  }

  /** A `Latest` callback target holds a receiver itself; otherwise only the worker does. */
  predicate RawConnected(c: Config, s: State) {
    !s.WorkerGone() || c.RawPolicy() == Latest
  }

  predicate Enabled(c: Config, s: State, a: Action) {
    match a
    case Produce => s.open && s.callback.Idle?
    case CallbackTry => s.callback.First?
    case CallbackEvict => s.callback.Evict?
    case CallbackRetry => s.callback.Second?
    case Close => s.open && s.callback.Idle?
    case Receive => s.worker.Receiving? && s.raw != []
    case Write(ok) => s.worker.Holding? && (ok || c.file)
    case Handle(cut) => s.worker.Written?
    case Flush => s.worker.Receiving? && c.push == Windowed && s.window != []
    case Overflow => s.worker.Receiving? && c.push == Windowed
    case WorkerTry => s.worker.Trying?
    case WorkerEvict => s.worker.Evicting?
    case WorkerRetry => s.worker.Retrying?
    case Finish => s.worker.Receiving? && s.raw == [] && !s.open
    case HangUp => s.worker.Stopping?
    case Join => s.worker.Joining? && s.deliverer.Done?
    case Take => s.deliverer.Waiting? && s.pushq != []
    case PutReturns => s.deliverer.Pushing?
    case DeleteReturns => s.deliverer.Deleting?
    case Quit => s.deliverer.Waiting? && s.pushq == [] && s.WorkerGone()
  }

  function Sent(w: Worker): Worker
    requires w.Trying? || w.Retrying?
  {
    if w.final then Stopping else Receiving
  }

  function Apply(c: Config, s: State, a: Action): State
    requires Enabled(c, s, a)
  {
    match a
    // The callback: `enqueue_latest` on the raw queue.
    case Produce => s.(produced := s.produced + 1, callback := First(s.produced))
    case CallbackTry =>
      if !RawConnected(c, s) then s.(callback := Idle)
      else if Room(c.RawPolicy(), s.raw) then s.(callback := Idle, raw := s.raw + [s.callback.n])
      else s.(callback := Evict(s.callback.n))
    case CallbackEvict => s.(callback := Second(s.callback.n), raw := if s.raw == [] then [] else s.raw[1..])
    case CallbackRetry =>
      if Room(c.RawPolicy(), s.raw) then s.(callback := Idle, raw := s.raw + [s.callback.n]) else s.(callback := Idle)
    case Close => s.(open := false)
    // The worker: receive, write, then hand on or add to the window.
    case Receive => s.(raw := s.raw[1..], worker := Holding(s.raw[0]))
    case Write(ok) =>
      if !ok then s.(worker := Stopping, failed := true, window := [])
      else if c.file then s.(worker := Written(s.worker.n), file := s.file + [s.worker.n])
      else s.(worker := Written(s.worker.n))
    case Handle(cut) =>
      var n := s.worker.n;
      if c.push == NoPush then s.(worker := Receiving)
      else if c.push == Immediate then s.(worker := Trying(Interval(n), false))
      else if cut && s.window != [] then s.(worker := Trying(Window(s.window), false), window := [n])
      else s.(worker := Receiving, window := s.window + [n])
    case Flush => s.(worker := Trying(Window(s.window), false), window := [])
    case Overflow => s.(worker := Stopping, failed := true, window := [])
    case WorkerTry =>
      if Room(c.PushPolicy(), s.pushq) then s.(worker := Sent(s.worker), pushq := s.pushq + [s.worker.event])
      else s.(worker := Evicting(s.worker.event, s.worker.final))
    case WorkerEvict =>
      s.(worker := Retrying(s.worker.event, s.worker.final), pushq := if s.pushq == [] then [] else s.pushq[1..])
    case WorkerRetry =>
      if Room(c.PushPolicy(), s.pushq) then s.(worker := Sent(s.worker), pushq := s.pushq + [s.worker.event])
      else s.(worker := Sent(s.worker))
    case Finish =>
      if s.window == [] then s.(worker := Stopping)
      else s.(worker := Trying(Window(s.window), true), window := [])
    case HangUp =>
      s.(worker := if c.push == NoPush then Returned else Joining, raw := if c.RawPolicy() == All then [] else s.raw)
    case Join => s.(worker := Returned)
    // The delivery thread.
    case Take => s.(deliverer := Pushing(s.pushq[0]), pushq := s.pushq[1..])
    case PutReturns => s.(deliverer := Waiting, calls := s.calls + [Put(s.deliverer.event)])
    case DeleteReturns => s.(deliverer := Done, calls := s.calls + [Delete])
    case Quit => s.(deliverer := if c.deleteOnFinish then Deleting else Done)
  }

  /** The state after a schedule, if every action of it was enabled in turn. */
  function Play(c: Config, schedule: seq<Action>): Option<State> {
    if schedule == [] then Some(Init(c))
    else
      var before := Play(c, schedule[..|schedule| - 1]);
      var a := schedule[|schedule| - 1];
      if before.Some? && Enabled(c, before.value, a) then Some(Apply(c, before.value, a)) else None
  }

  // ---- Where every sample is ----

  function Samples(events: seq<Event>): seq<nat> {
    if events == [] then [] else Samples(events[..|events| - 1]) + events[|events| - 1].Numbers()
  }

  function Puts(calls: seq<SinkCall>): seq<Event> {
    if calls == [] then []
    else Puts(calls[..|calls| - 1]) + (if calls[|calls| - 1].Put? then [calls[|calls| - 1].event] else [])
  }

  /** The events handed to `push` so far, the one in progress included. */
  function Handed(s: State): seq<Event> {
    Puts(s.calls) + if s.deliverer.Pushing? then [s.deliverer.event] else []
  }

  function InHand(w: Worker): seq<nat> {
    if w.Trying? || w.Evicting? || w.Retrying? then w.event.Numbers() else []
  }

  function Held(w: Worker): seq<nat> {
    if w.Holding? || w.Written? then [w.n] else []
  }

  function Incoming(cb: Callback): seq<nat> {
    if cb.Idle? then [] else [cb.n]
  }

  /** Delivered, queued for delivery, in the worker's hand. */
  function Downstream(s: State): seq<nat> {
    Samples(Handed(s) + s.pushq) + InHand(s.worker)
  }

  function Upstream(s: State): seq<nat> {
    s.window + Held(s.worker) + s.raw + Incoming(s.callback)
  }

  /** All samples in the pipeline, oldest first. */
  function Trail(s: State): seq<nat> {
    Downstream(s) + Upstream(s)
  }

  predicate Increasing(ns: seq<nat>) {
    forall i, j | 0 <= i < j < |ns| :: ns[i] < ns[j]
  }

  predicate Below(ns: seq<nat>, bound: nat) {
    forall i | 0 <= i < |ns| :: ns[i] < bound
  }

  function UpTo(n: nat): (ns: seq<nat>)
    ensures |ns| == n && forall i | 0 <= i < n :: ns[i] == i
  {
    seq(n, i => i)
  }

  // ---- What every step keeps ----

  /** Queues never exceed their capacity, and a retry always finds room. */
  predicate QueuesFit(c: Config, s: State) {
    && (c.RawPolicy() == Latest ==> |s.raw| <= 1)
    && (c.PushPolicy() == Latest ==> |s.pushq| <= 1)
    && (s.callback.Evict? || s.callback.Second? ==> c.RawPolicy() == Latest)
    && (s.callback.Second? ==> s.raw == [])
    && (s.worker.Evicting? || s.worker.Retrying? ==> c.PushPolicy() == Latest)
    && (s.worker.Retrying? ==> s.pushq == [])
  }

  /** The order in which the threads wind down. */
  predicate WindsDown(c: Config, s: State) {
    && (!s.open ==> s.callback.Idle?)
    && (InHand(s.worker) != [] && s.worker.final ==> !s.open && s.raw == [] && s.window == [])
    && (s.worker.Stopping? || s.WorkerGone() ==> s.failed || (!s.open && s.raw == []))
    && (s.worker.Stopping? || s.WorkerGone() ==> s.window == [])
    && (s.failed ==> s.worker.Stopping? || s.WorkerGone())
    && (c.push == NoPush
        ==> s.deliverer.Done? && s.pushq == [] && s.window == [] && InHand(s.worker) == [] && s.calls == [])
    && (c.push != NoPush && (s.deliverer.Deleting? || s.deliverer.Done?) ==> s.WorkerGone() && s.pushq == [])
    && (c.push != NoPush && s.worker.Returned? ==> s.deliverer.Done?)
    && (s.worker.Joining? ==> c.push != NoPush)
    && (c.push != Windowed ==> s.window == [])
    && ((s.worker.Trying? || s.worker.Evicting? || s.worker.Retrying?) ==> InHand(s.worker) != [])
  }

  /** A delete is the last call to the sink, and comes exactly when configured. */
  predicate DeleteComesLast(c: Config, s: State) {
    && (forall i | 0 <= i < |s.calls| :: s.calls[i].Delete? ==> i == |s.calls| - 1 && s.deliverer.Done?)
    && (s.deliverer.Deleting? ==> c.deleteOnFinish)
    && (c.push != NoPush && s.deliverer.Done?
        ==> (c.deleteOnFinish <==> s.calls != [] && s.calls[|s.calls| - 1].Delete?))
  }

  function Unwritten(s: State): seq<nat> {
    Unfiled(s.worker) + s.raw + Incoming(s.callback)
  }

  function Unfiled(w: Worker): seq<nat> {
    if w.Holding? then [w.n] else []
  }

  /** The file holds what was produced, from the first sample on; until a failure the rest is upstream. */
  predicate FileFollows(c: Config, s: State) {
    && (!c.file ==> s.file == [])
    && (c.file ==> |s.file| <= s.produced && s.file == UpTo(|s.file|))
    && (c.file && !s.failed ==> s.file + Unwritten(s) == UpTo(s.produced))
  }

  predicate Ordered(c: Config, s: State) {
    Increasing(Trail(s)) && Below(Trail(s), s.produced)
  }

  /** Until a failure, the newest sample is still on its way or delivered. */
  predicate KeepsNewest(c: Config, s: State) {
    c.push != NoPush && !s.failed && s.produced > 0 ==> Trail(s) != [] && Trail(s)[|Trail(s)| - 1] == s.produced - 1
  }

  /** Until a failure, windowed delivery keeps every sample. */
  predicate KeepsAll(c: Config, s: State) {
    c.push == Windowed && !s.failed ==> Trail(s) == UpTo(s.produced)
  }

  ghost predicate Inv(c: Config, s: State) {
    && QueuesFit(c, s) && WindsDown(c, s) && DeleteComesLast(c, s) && FileFollows(c, s)
    && Ordered(c, s) && KeepsNewest(c, s) && KeepsAll(c, s)
  }

  lemma {:induction false} SamplesOfConcat(a: seq<Event>, b: seq<Event>)
    ensures Samples(a + b) == Samples(a) + Samples(b)
  {
    if b == [] {
      assert a + b == a;
    } else {
      var init := b[..|b| - 1];
      SamplesOfConcat(a, init);
      assert (a + b)[..|a + b| - 1] == a + init;
      Associative(Samples(a), Samples(init), b[|b| - 1].Numbers());
    }
  }

  lemma RegroupEviction<T>(handed: seq<T>, first: seq<T>, others: seq<T>, hand: seq<T>, up: seq<T>)
    ensures handed + first + others + hand + up == handed + first + (others + hand + up)
    ensures handed + others + hand + up == handed + (others + hand + up)
  {
  }

  lemma RegroupTrail<T>(down: seq<T>, window: seq<T>, held: seq<T>, raw: seq<T>, incoming: seq<T>)
    ensures down + (window + held + raw + incoming) == (down + window + held) + raw + incoming
    ensures down + (window + held + raw + incoming) == down + (window + held) + (raw + incoming)
  {
  }

  lemma SamplesOfOne(e: Event)
    ensures Samples([e]) == e.Numbers()
  {
    assert [e][..0] == [];
  }

  /** Steps of the callback: a sample enters at the new end, and only an eviction takes one out. */
  lemma CallbackTrail(c: Config, s: State, a: Action) returns (before: seq<nat>, gone: seq<nat>, after: seq<nat>)
    requires QueuesFit(c, s) && Enabled(c, s, a)
    requires a.Produce? || a.CallbackTry? || a.CallbackEvict? || a.CallbackRetry? || a.Close?
    ensures Trail(s) == before + gone + after
    ensures Trail(Apply(c, s, a)) == before + after + if a.Produce? then [s.produced] else []
    ensures gone != [] ==> after != [] || !RawConnected(c, s)
    ensures gone != [] ==> c.RawPolicy() == Latest || !RawConnected(c, s)
  {
    hide Samples, Puts;
    var t := Apply(c, s, a);
    var front := Downstream(s) + s.window + Held(s.worker);
    assert Downstream(t) == Downstream(s);
    RegroupTrail(Downstream(s), s.window, Held(s.worker), s.raw, Incoming(s.callback));
    RegroupTrail(Downstream(s), s.window, Held(s.worker), t.raw, Incoming(t.callback));
    hide Downstream, Held;
    if a.CallbackEvict? {
      before, gone, after := front, s.raw, Incoming(s.callback);
      assert t.raw == [];
    } else if a.CallbackTry? && !RawConnected(c, s) {
      before, gone, after := front + s.raw, Incoming(s.callback), [];
    } else {
      before, gone, after := Trail(s), [], [];
    }
  }

  /** Steps of the delivery thread move samples from queue to sink without losing any. */
  lemma DelivererTrail(c: Config, s: State, a: Action)
    requires Enabled(c, s, a) && (a.Take? || a.PutReturns? || a.DeleteReturns? || a.Quit?)
    ensures Trail(Apply(c, s, a)) == Trail(s) && Downstream(Apply(c, s, a)) == Downstream(s)
  {
    hide Samples, Puts, Upstream, InHand;
    var t := Apply(c, s, a);
    if a.PutReturns? || a.DeleteReturns? {
      PutsOneMore(s.calls, t.calls[|t.calls| - 1]);
    }
    var done := Puts(s.calls);
    assert done + [] == done;
    if a.Take? {
      assert (done + [s.pushq[0]]) + s.pushq[1..] == done + s.pushq;
    }
    assert Handed(t) + t.pushq == Handed(s) + s.pushq;
    assert Upstream(t) == Upstream(s) && InHand(t.worker) == InHand(s.worker) by {
      SameUpstream(s, t);
    }
  }

  lemma PutsOneMore(calls: seq<SinkCall>, call: SinkCall)
    ensures Puts(calls + [call]) == Puts(calls) + if call.Put? then [call.event] else []
  {
    assert (calls + [call])[..|calls|] == calls;
  }

  lemma SameUpstream(s: State, t: State)
    requires t.window == s.window && t.worker == s.worker && t.raw == s.raw && t.callback == s.callback
    ensures Upstream(t) == Upstream(s) && InHand(t.worker) == InHand(s.worker)
  {
  }

  lemma SameEventSameHand(s: State, t: State)
    requires s.worker.Evicting? && t.worker == Retrying(s.worker.event, s.worker.final)
    requires s.window == t.window && s.raw == t.raw && s.callback == t.callback
    ensures InHand(t.worker) == InHand(s.worker) && Upstream(t) == Upstream(s)
  {
  }

  /** An eviction by the worker removes the oldest queued event; the one in its hand stays. */
  lemma WorkerEvictTrail(c: Config, s: State) returns (before: seq<nat>, gone: seq<nat>, after: seq<nat>)
    requires Enabled(c, s, WorkerEvict)
    ensures Trail(s) == before + gone + after && Trail(Apply(c, s, WorkerEvict)) == before + after
    ensures InHand(s.worker) != [] ==> after != []
  {
    var t := Apply(c, s, WorkerEvict);
    hide Samples, Puts, Upstream, InHand;
    assert t.pushq == if s.pushq == [] then [] else s.pushq[1..];
    var handed, rest, up := Handed(s), InHand(s.worker), Upstream(s);
    assert Handed(t) == handed;
    SameEventSameHand(s, t);
    hide Handed, Enabled, Apply;
    if s.pushq == [] {
      before, gone, after := Samples(handed + s.pushq), [], rest + up;
      return;
    }
    var first, others := [s.pushq[0]], s.pushq[1..];
    assert handed + s.pushq == (handed + first) + others;
    SamplesOfConcat(handed + first, others);
    SamplesOfConcat(handed, first);
    SamplesOfConcat(handed, others);
    before, gone, after := Samples(handed), Samples(first), Samples(others) + rest + up;
    RegroupEviction(Samples(handed), Samples(first), Samples(others), rest, up);
    assert Handed(t) + t.pushq == handed + others;
  }

  /** Sending the event in hand appends it to the delivery queue. */
  lemma WorkerSendTrail(c: Config, s: State, a: Action)
    requires QueuesFit(c, s) && Enabled(c, s, a) && (a.WorkerTry? || a.WorkerRetry?)
    ensures Trail(Apply(c, s, a)) == Trail(s)
  {
    hide Samples, Puts;
    var t := Apply(c, s, a);
    assert Upstream(t) == Upstream(s) && Handed(t) == Handed(s);
    if t.pushq != s.pushq {
      var queued, e := Handed(s) + s.pushq, s.worker.event;
      assert Handed(t) + t.pushq == queued + [e];
      SamplesOfConcat(queued, [e]);
      SamplesOfOne(e);
    }
  }

  /** A failure, the end of the loop and having no push drop only what the worker has not handed on. */
  lemma WorkerDropTrail(c: Config, s: State, a: Action) returns (before: seq<nat>, gone: seq<nat>, after: seq<nat>)
    requires WindsDown(c, s) && Enabled(c, s, a)
    requires a == Write(false) || a.Overflow? || a.HangUp? || (a.Handle? && c.push == NoPush)
    ensures Trail(s) == before + gone + after && Trail(Apply(c, s, a)) == before + after
    ensures gone != [] ==> Apply(c, s, a).failed || c.push == NoPush
  {
    var t := Apply(c, s, a);
    SameDownstream(c, s, a);
    hide Downstream;
    var down := Downstream(s);
    RegroupTrail(down, s.window, Held(s.worker), s.raw, Incoming(s.callback));
    RegroupTrail(down, t.window, Held(t.worker), t.raw, Incoming(t.callback));
    if a.HangUp? && t.raw != s.raw {
      before, gone, after := down + s.window + Held(s.worker), s.raw, Incoming(s.callback);
    } else if a.HangUp? {
      before, gone, after := Trail(s), [], [];
    } else {
      before, gone, after := down, s.window + Held(s.worker), s.raw + Incoming(s.callback);
      assert t.window == [] && Held(t.worker) == [] && t.raw == s.raw;
      assert down + [] == down;
    }
  }

  lemma SameDownstream(c: Config, s: State, a: Action)
    requires WindsDown(c, s) && Enabled(c, s, a)
    requires a == Write(false) || a.Overflow? || a.HangUp? || (a.Handle? && c.push == NoPush)
    ensures Downstream(Apply(c, s, a)) == Downstream(s)
  {
  }

  /** Receiving, writing, filling and flushing the window, and winding down keep every sample in its place. */
  lemma WorkerMoveTrail(c: Config, s: State, a: Action)
    requires WindsDown(c, s) && Enabled(c, s, a)
    requires a.Receive? || a == Write(true) || (a.Handle? && c.push != NoPush) || a.Flush? || a.Finish? || a.Join?
    ensures Trail(Apply(c, s, a)) == Trail(s)
  {
    hide Samples, Puts;
    var t := Apply(c, s, a);
    var queued := Samples(Handed(s) + s.pushq);
    assert Handed(t) == Handed(s) && t.pushq == s.pushq;
    MiddleStays(c, s, a);
    RegroupMiddle(queued, InHand(s.worker), s.window, Held(s.worker), s.raw, Incoming(s.callback));
    RegroupMiddle(queued, InHand(t.worker), t.window, Held(t.worker), t.raw, Incoming(t.callback));
  }

  lemma RegroupMiddle<T>(queued: seq<T>, hand: seq<T>, window: seq<T>, held: seq<T>, raw: seq<T>, incoming: seq<T>)
    ensures queued + hand + (window + held + raw + incoming) == queued + (hand + window + held + raw) + incoming
  {
  }

  lemma Shifts<T>(window: seq<T>, x: T, rest: seq<T>)
    ensures [] + window + [] + ([x] + rest) == [] + window + [x] + rest
    ensures [] + [] + [x] + rest == [x] + [] + [] + rest
    ensures [] + window + [x] + rest == window + [x] + [] + rest
    ensures [] + window + [x] + rest == [] + (window + [x]) + [] + rest
    ensures [] + window + [] + rest == window + [] + [] + rest
  {
  }

  lemma MiddleStays(c: Config, s: State, a: Action)
    requires WindsDown(c, s) && Enabled(c, s, a)
    requires a.Receive? || a == Write(true) || (a.Handle? && c.push != NoPush) || a.Flush? || a.Finish? || a.Join?
    ensures var t := Apply(c, s, a);
            InHand(s.worker) + s.window + Held(s.worker) + s.raw == InHand(t.worker) + t.window + Held(t.worker) + t.raw
  {
    match a
    case Receive =>
      Shifts(s.window, s.raw[0], s.raw[1..]);
      assert s.raw == [s.raw[0]] + s.raw[1..];
    case Handle(cut) =>
      Shifts(s.window, s.worker.n, s.raw);
    case Flush =>
      Shifts(s.window, 0, s.raw);
    case Finish =>
      Shifts(s.window, 0, s.raw);
    case Write(ok) =>
    case Join =>
  }

  /** The steps of the worker and the join. */
  lemma WorkerTrail(c: Config, s: State, a: Action) returns (before: seq<nat>, gone: seq<nat>, after: seq<nat>)
    requires QueuesFit(c, s) && WindsDown(c, s) && Enabled(c, s, a) && (IsWorkerAction(a) || a.Join?)
    ensures Trail(s) == before + gone + after && Trail(Apply(c, s, a)) == before + after
    ensures gone != [] && c.push != NoPush && !Apply(c, s, a).failed ==> after != [] && c.push != Windowed
  {
    hide Trail, Apply;
    before, gone, after := Trail(s), [], [];
    assert before + gone + after == before + after == Trail(s);
    if a.WorkerEvict? {
      before, gone, after := WorkerEvictTrail(c, s);
    } else if a.WorkerTry? || a.WorkerRetry? {
      WorkerSendTrail(c, s, a);
    } else if a == Write(false) || a.Overflow? || a.HangUp? || (a.Handle? && c.push == NoPush) {
      before, gone, after := WorkerDropTrail(c, s, a);
    } else {
      assert a.Write? ==> a == Write(true);
      WorkerMoveTrail(c, s, a);
    }
  }

  /** Every step: the trail loses at most one stretch, and a produced sample joins at the new end. */
  lemma TrailStep(c: Config, s: State, a: Action) returns (before: seq<nat>, gone: seq<nat>, after: seq<nat>)
    requires QueuesFit(c, s) && WindsDown(c, s) && Enabled(c, s, a)
    ensures Trail(s) == before + gone + after
    ensures Trail(Apply(c, s, a)) == before + after + if a.Produce? then [s.produced] else []
    ensures gone != [] && c.push != NoPush && !Apply(c, s, a).failed ==> after != [] && c.push != Windowed
  {
    hide Trail;
    if IsWorkerAction(a) || a.Join? {
      hide *;
      before, gone, after := WorkerTrail(c, s, a);
      assert before + after + [] == before + after;
    } else if a.Take? || a.PutReturns? || a.DeleteReturns? || a.Quit? {
      DelivererTrail(c, s, a);
      before, gone, after := Trail(s), [], [];
    } else {
      hide Apply;
      before, gone, after := CallbackTrail(c, s, a);
      ConnectedUntilGone(c, s, a);
    }
  }

  /** While nothing has failed, samples meet a raw queue without a receiver only after the producer has closed. */
  lemma ConnectedUntilGone(c: Config, s: State, a: Action)
    requires WindsDown(c, s) && Enabled(c, s, a)
    requires a.Produce? || a.CallbackTry? || a.CallbackEvict? || a.CallbackRetry? || a.Close?
    ensures RawConnected(c, s) || Apply(c, s, a).failed
    ensures c.RawPolicy() == Latest ==> c.push != Windowed
  {
  }

  lemma StepKeepsQueues(c: Config, s: State, a: Action)
    requires QueuesFit(c, s) && Enabled(c, s, a)
    ensures QueuesFit(c, Apply(c, s, a))
  {
  }

  lemma WorkerKeepsWindingDown(c: Config, s: State, a: Action)
    requires WindsDown(c, s) && Enabled(c, s, a) && (IsWorkerAction(a) || a.Join?)
    ensures WindsDown(c, Apply(c, s, a))
  {
  }

  lemma StepKeepsWindingDown(c: Config, s: State, a: Action)
    requires WindsDown(c, s) && Enabled(c, s, a)
    ensures WindsDown(c, Apply(c, s, a))
  {
    if IsWorkerAction(a) || a.Join? {
      WorkerKeepsWindingDown(c, s, a);
    }
  }

  lemma StepKeepsDeleteLast(c: Config, s: State, a: Action)
    requires WindsDown(c, s) && DeleteComesLast(c, s) && Enabled(c, s, a)
    ensures DeleteComesLast(c, Apply(c, s, a))
  {
    var t := Apply(c, s, a);
    if a.PutReturns? || a.DeleteReturns? || a.Quit? {
      assert forall i | 0 <= i < |s.calls| :: !s.calls[i].Delete?;
    } else {
      hide WindsDown;
      assert t.calls == s.calls && (t.deliverer.Done? <==> s.deliverer.Done?);
      assert t.deliverer.Deleting? <==> s.deliverer.Deleting?;
    }
  }

  lemma UpToNext(n: nat)
    ensures UpTo(n + 1) == UpTo(n) + [n]
  {
  }

  lemma PrefixOfUpTo(file: seq<nat>, rest: seq<nat>, n: nat)
    requires file + rest == UpTo(n)
    ensures |file| <= n && file == UpTo(|file|)
  {
    assert forall i | 0 <= i < |file| :: (file + rest)[i] == file[i];
  }

  lemma HandOver<T>(first: seq<T>, x: T, last: seq<T>)
    ensures [] + ([x] + first) + last == [x] + first + last
    ensures first + [] + [x] == first + [x] + [] == first + [x]
    ensures [x] + first + last == [x] + ([] + first + last)
  {
  }

  /** Until a failure, a sample leaves the unwritten ones only by being written. */
  lemma UnwrittenStep(c: Config, s: State, a: Action)
    requires QueuesFit(c, s) && WindsDown(c, s) && Enabled(c, s, a) && c.file && !Apply(c, s, a).failed
    ensures var t := Apply(c, s, a);
            if a == Write(true) then Unwritten(s) == [s.worker.n] + Unwritten(t) && t.file == s.file + [s.worker.n]
            else t.file == s.file && Unwritten(t) == Unwritten(s) + if a.Produce? then [s.produced] else []
  {
    var t := Apply(c, s, a);
    if a.Receive? {
      assert s.raw == [s.raw[0]] + t.raw;
      HandOver(t.raw, s.raw[0], Incoming(s.callback));
    } else if a.Write? {
      HandOver(s.raw, s.worker.n, Incoming(s.callback));
    } else if a.Produce? {
      HandOver(Unfiled(s.worker) + s.raw, s.produced, []);
    } else if a.CallbackTry? {
      HandOver(Unfiled(s.worker) + s.raw, s.callback.n, []);
      Associative(Unfiled(s.worker), s.raw, [s.callback.n]);
    } else {
      assert Unfiled(t.worker) == Unfiled(s.worker) && t.raw == s.raw && Incoming(t.callback) == Incoming(s.callback);
    }
  }

  /** Until a failure, file and unwritten samples together change only by production. */
  lemma FileAndUnwritten(c: Config, s: State, a: Action)
    requires QueuesFit(c, s) && WindsDown(c, s) && Enabled(c, s, a) && c.file && !Apply(c, s, a).failed
    ensures var t := Apply(c, s, a);
            t.file + Unwritten(t) == s.file + Unwritten(s) + if a.Produce? then [s.produced] else []
  {
    hide QueuesFit, WindsDown, Unwritten, Apply;
    var t := Apply(c, s, a);
    UnwrittenStep(c, s, a);
    if a == Write(true) {
      Associative(s.file, [s.worker.n], Unwritten(t));
    } else {
      Associative(s.file, Unwritten(s), if a.Produce? then [s.produced] else []);
    }
  }

  lemma FileWithoutWriting(c: Config, s: State, a: Action)
    requires WindsDown(c, s) && Enabled(c, s, a) && (!c.file || Apply(c, s, a).failed)
    ensures Apply(c, s, a).file == s.file && Apply(c, s, a).produced >= s.produced
  {
  }

  lemma StepKeepsFile(c: Config, s: State, a: Action)
    requires Inv(c, s) && Enabled(c, s, a)
    ensures FileFollows(c, Apply(c, s, a))
  {
    hide Ordered, KeepsNewest, KeepsAll, DeleteComesLast, QueuesFit, WindsDown, UpTo, Apply, Enabled;
    var t := Apply(c, s, a);
    if c.file && !t.failed {
      ProductionCounts(c, s, a);
      FileAndUnwritten(c, s, a);
      UpToNext(s.produced);
      assert s.file + Unwritten(s) == UpTo(s.produced);
      assert s.file + Unwritten(s) + [] == s.file + Unwritten(s);
      assert t.file + Unwritten(t) == UpTo(t.produced);
      PrefixOfUpTo(t.file, Unwritten(t), t.produced);
    } else {
      FileWithoutWriting(c, s, a);
    }
  }

  lemma CutKeepsOrder(before: seq<nat>, gone: seq<nat>, after: seq<nat>, bound: nat)
    requires Increasing(before + gone + after) && Below(before + gone + after, bound)
    ensures Increasing(before + after) && Below(before + after, bound)
    ensures Increasing(before + after + [bound]) && Below(before + after + [bound], bound + 1)
  {
    var all, cut := before + gone + after, before + after;
    forall i | 0 <= i < |cut| ensures cut[i] == all[if i < |before| then i else i + |gone|] {
    }
  }

  lemma ProductionCounts(c: Config, s: State, a: Action)
    requires Enabled(c, s, a)
    ensures var t := Apply(c, s, a);
            && t.produced == s.produced + (if a.Produce? then 1 else 0)
            && (s.failed ==> t.failed)
  {
  }

  lemma StepKeepsTrail(c: Config, s: State, a: Action)
    requires Inv(c, s) && Enabled(c, s, a)
    ensures var t := Apply(c, s, a); Ordered(c, t) && KeepsNewest(c, t) && KeepsAll(c, t)
  {
    hide Apply, Enabled, Trail, DeleteComesLast, FileFollows, UpTo, QueuesFit, WindsDown;
    var t := Apply(c, s, a);
    var before, gone, after := TrailStep(c, s, a);
    ProductionCounts(c, s, a);
    CutKeepsOrder(before, gone, after, s.produced);
    hide Increasing, Below;
    UpToNext(s.produced);
    NewestStays(before, gone, after);
    assert Ordered(c, t);
    assert KeepsAll(c, t);
  }

  lemma NewestStays(before: seq<nat>, gone: seq<nat>, after: seq<nat>)
    ensures before + after + [] == before + after
    ensures gone == [] ==> before + gone + after == before + after
    ensures after != [] ==> (before + gone + after)[|before + gone + after| - 1] == after[|after| - 1]
    ensures after != [] ==> (before + after)[|before + after| - 1] == after[|after| - 1]
  {
  }

  lemma InitInv(c: Config)
    ensures Inv(c, Init(c))
  {
    var s := Init(c);
    assert Handed(s) + s.pushq == [];
    assert Trail(s) == [];
  }

  lemma StepKeepsInv(c: Config, s: State, a: Action)
    requires Inv(c, s) && Enabled(c, s, a)
    ensures Inv(c, Apply(c, s, a))
  {
    hide *;
    InvParts(c, s);
    StepKeepsQueues(c, s, a);
    StepKeepsWindingDown(c, s, a);
    StepKeepsDeleteLast(c, s, a);
    StepKeepsFile(c, s, a);
    StepKeepsTrail(c, s, a);
    PartsInv(c, Apply(c, s, a));
  }

  lemma PartsInv(c: Config, s: State)
    requires QueuesFit(c, s) && WindsDown(c, s) && DeleteComesLast(c, s) && FileFollows(c, s)
    requires Ordered(c, s) && KeepsNewest(c, s) && KeepsAll(c, s)
    ensures Inv(c, s)
  {
  }

  /** Main result: the invariant holds after every schedule of the three threads. */
  lemma {:induction false} ReachableInv(c: Config, schedule: seq<Action>)
    requires Play(c, schedule).Some?
    ensures Inv(c, Play(c, schedule).value)
  {
    if schedule == [] {
      InitInv(c);
    } else {
      var init, a := schedule[..|schedule| - 1], schedule[|schedule| - 1];
      ReachableInv(c, init);
      StepKeepsInv(c, Play(c, init).value, a);
    }
  }

  // ---- What the invariant means for the sinks ----

  /** At every moment, what was handed to `push` is in production order, without repeats. */
  lemma DeliveryIsInOrder(c: Config, schedule: seq<Action>)
    requires Play(c, schedule).Some?
    ensures var s := Play(c, schedule).value;
            Increasing(Samples(Handed(s))) && Below(Samples(Handed(s)), s.produced)
  {
    ReachableInv(c, schedule);
    var s := Play(c, schedule).value;
    SamplesOfConcat(Handed(s), s.pushq);
    hide Samples, Handed, Upstream, InHand, Increasing, Below, QueuesFit, WindsDown, FileFollows, KeepsNewest, KeepsAll,
         DeleteComesLast;
    RegroupHanded(Samples(Handed(s)), Samples(s.pushq), InHand(s.worker), Upstream(s));
    PrefixKeepsOrder(Samples(Handed(s)), Samples(s.pushq) + InHand(s.worker) + Upstream(s), s.produced);
  }

  lemma RegroupHanded<T>(a: seq<T>, b: seq<T>, c: seq<T>, d: seq<T>)
    ensures a + b + c + d == a + (b + c + d)
  {
  }

  lemma PrefixKeepsOrder(a: seq<nat>, b: seq<nat>, bound: nat)
    requires Increasing(a + b) && Below(a + b, bound)
    ensures Increasing(a) && Below(a, bound)
  {
    assert forall i | 0 <= i < |a| :: (a + b)[i] == a[i];
  }

  /** The second `try_send` of an enqueue never finds the queue full. */
  lemma SecondTrySendFits(c: Config, schedule: seq<Action>)
    requires Play(c, schedule).Some?
    ensures var s := Play(c, schedule).value;
            && (s.callback.Second? ==> Room(c.RawPolicy(), s.raw))
            && (s.worker.Retrying? ==> Room(c.PushPolicy(), s.pushq))
  {
    ReachableInv(c, schedule);
  }

  /**
   Main result on the queues: immediate delivery never has more than one event waiting, whether or not there is a file,
   and a pipeline with neither a file nor windows never more than one sample; every other queue never drops anything.
   */
  lemma QueuesHoldTheNewest(c: Config, schedule: seq<Action>)
    requires Play(c, schedule).Some?
    ensures var s := Play(c, schedule).value;
            && (c.push == Immediate ==> |s.pushq| <= 1)
            && (!c.file && c.push != Windowed ==> |s.raw| <= 1)
            && (c.push == Windowed ==> !s.worker.Evicting? && !s.worker.Retrying?)
            && (c.file || c.push == Windowed ==> !s.callback.Evict? && !s.callback.Second?)
  {
    hide *;
    ReachableInv(c, schedule);
    InvParts(c, Play(c, schedule).value);
    FitsMeans(c, Play(c, schedule).value);
  }

  lemma FitsMeans(c: Config, s: State)
    requires QueuesFit(c, s)
    ensures c.push == Immediate ==> |s.pushq| <= 1
    ensures !c.file && c.push != Windowed ==> |s.raw| <= 1
    ensures c.push == Windowed ==> !s.worker.Evicting? && !s.worker.Retrying?
    ensures c.file || c.push == Windowed ==> !s.callback.Evict? && !s.callback.Second?
  {
  }

  /**
   Main result on one enqueue: a send that has just ended leaves its event alone in the queue of an immediate delivery,
   however stale the queue was, and behind everything else in that of a windowed one; likewise for the raw queue.
   */
  lemma SendsReplaceStaleItems(c: Config, schedule: seq<Action>, a: Action)
    requires Play(c, schedule).Some? && Enabled(c, Play(c, schedule).value, a)
    ensures var s := Play(c, schedule).value;
            var t := Apply(c, s, a);
            && (c.push == Immediate && (a.WorkerTry? || a.WorkerRetry?) && !t.worker.Evicting?
                ==> t.pushq == [s.worker.event])
            && (c.push == Windowed && (a.WorkerTry? || a.WorkerRetry?) ==> t.pushq == s.pushq + [s.worker.event])
            && (!c.file && c.push != Windowed && (a.CallbackTry? || a.CallbackRetry?) && t.callback.Idle?
                ==> t.raw == [s.callback.n])
            && ((c.file || c.push == Windowed) && (a.CallbackTry? || a.CallbackRetry?) && !s.WorkerGone()
                ==> t.raw == s.raw + [s.callback.n])
  {
    hide Play, WindsDown, DeleteComesLast, FileFollows, Ordered, KeepsNewest, KeepsAll;
    ReachableInv(c, schedule);
    SendReplaces(c, Play(c, schedule).value, a);
  }

  lemma SendReplaces(c: Config, s: State, a: Action)
    requires QueuesFit(c, s) && Enabled(c, s, a)
    ensures var t := Apply(c, s, a);
            && (c.push == Immediate && (a.WorkerTry? || a.WorkerRetry?) && !t.worker.Evicting?
                ==> t.pushq == [s.worker.event])
            && (c.push == Windowed && (a.WorkerTry? || a.WorkerRetry?) ==> t.pushq == s.pushq + [s.worker.event])
            && (!c.file && c.push != Windowed && (a.CallbackTry? || a.CallbackRetry?) && t.callback.Idle?
                ==> t.raw == [s.callback.n])
            && ((c.file || c.push == Windowed) && (a.CallbackTry? || a.CallbackRetry?) && !s.WorkerGone()
                ==> t.raw == s.raw + [s.callback.n])
  {
  }

  /** A sample of another context, and time, complete the window before it; any other sample joins the open window. */
  lemma CutsCompleteWindows(c: Config, schedule: seq<Action>, a: Action)
    requires Play(c, schedule).Some? && c.push == Windowed && Enabled(c, Play(c, schedule).value, a)
    ensures var s := Play(c, schedule).value;
            var t := Apply(c, s, a);
            && (a == Handle(true) ==> InHand(t.worker) == s.window && t.window == [s.worker.n])
            && (a == Handle(false) ==> InHand(t.worker) == [] && t.window == s.window + [s.worker.n])
            && (a.Flush? || a.Finish? ==> InHand(t.worker) == s.window && t.window == [])
  {
    hide Play;
    if a.Handle? {
      var n := Play(c, schedule).value.worker.n;
      assert [] + [n] == [n];
    }
  }

  /** Immediate delivery is of single samples, windowed delivery of windows that are not empty. */
  predicate Suits(c: Config, e: Event) {
    if c.push == Immediate then e.Interval? else c.push == Windowed && e.Window? && e.ns != []
  }

  predicate AllSuit(c: Config, s: State) {
    && (forall i | 0 <= i < |s.pushq| :: Suits(c, s.pushq[i]))
    && (s.deliverer.Pushing? ==> Suits(c, s.deliverer.event))
    && (s.worker.Trying? || s.worker.Evicting? || s.worker.Retrying? ==> Suits(c, s.worker.event))
    && (forall i | 0 <= i < |s.calls| :: s.calls[i].Put? ==> Suits(c, s.calls[i].event))
  }

  lemma SuitStep(c: Config, s: State, a: Action)
    requires AllSuit(c, s) && Enabled(c, s, a) && (s.worker.Receiving? && s.window != [] ==> c.push == Windowed)
    ensures AllSuit(c, Apply(c, s, a))
  {
  }

  /** Every event queued for delivery, or handed to `push`, is of the kind the sink was configured for. */
  lemma {:induction false} EventsSuitTheSink(c: Config, schedule: seq<Action>)
    requires Play(c, schedule).Some?
    ensures AllSuit(c, Play(c, schedule).value)
  {
    hide Apply, Enabled, Suits;
    if schedule != [] {
      var init, a := schedule[..|schedule| - 1], schedule[|schedule| - 1];
      EventsSuitTheSink(c, init);
      ReachableInv(c, init);
      SuitStep(c, Play(c, init).value, a);
    }
  }

  /**
   When `run_metrics_sinks` returns, on success or failure, nothing is left to deliver and a configured delete is last.
   */
  lemma ReturnMeansDelivered(c: Config, schedule: seq<Action>)
    requires Play(c, schedule).Some? && Play(c, schedule).value.worker.Returned?
    ensures var s := Play(c, schedule).value;
            && s.pushq == [] && s.deliverer.Done?
            && Handed(s) == Puts(s.calls)
            && (forall i | 0 <= i < |s.calls| && s.calls[i].Delete? :: i == |s.calls| - 1)
            && (c.push != NoPush ==> (c.deleteOnFinish <==> s.calls != [] && s.calls[|s.calls| - 1].Delete?))
  {
    ReachableInv(c, schedule);
  }

  /** Without a failure, the last sample produced is in the last event delivered, and windowed delivery covers all. */
  lemma LastSampleIsDelivered(c: Config, schedule: seq<Action>)
    requires Play(c, schedule).Some? && c.push != NoPush
    requires Play(c, schedule).value.worker.Returned? && !Play(c, schedule).value.failed
    ensures var s := Play(c, schedule).value;
            var delivered := Samples(Puts(s.calls));
            && (s.produced > 0 ==> delivered != [] && delivered[|delivered| - 1] == s.produced - 1)
            && (c.push == Windowed ==> delivered == UpTo(s.produced))
  {
    hide Samples, Puts, UpTo, FileFollows, Ordered, DeleteComesLast, Play, Inv, QueuesFit, Increasing, Below;
    ReachableInv(c, schedule);
    var s := Play(c, schedule).value;
    InvParts(c, s);
    assert s.callback.Idle? && Upstream(s) == [] && InHand(s.worker) == [];
    assert Handed(s) + s.pushq == Puts(s.calls);
    assert Trail(s) == Samples(Puts(s.calls));
  }

  lemma UpstreamShrinks(c: Config, s: State, a: Action)
    requires Enabled(c, s, a)
    ensures |Upstream(Apply(c, s, a))| <= |Upstream(s)| + if a.Produce? then 1 else 0
  {
  }

  /** After a failure only delivery touches what the worker had handed on, and loses none of it. */
  lemma FailedKeepsDownstream(c: Config, s: State, a: Action)
    requires WindsDown(c, s) && Enabled(c, s, a) && Apply(c, s, a).failed
    ensures Downstream(Apply(c, s, a)) == Downstream(s)
  {
    hide Downstream, Samples, Puts;
    if a == Write(false) || a.Overflow? || a.HangUp? {
      SameDownstream(c, s, a);
    } else if a.Take? || a.PutReturns? || a.DeleteReturns? || a.Quit? {
      DelivererTrail(c, s, a);
    } else {
      CallbackKeepsDownstream(c, s, a);
    }
  }

  lemma CallbackKeepsDownstream(c: Config, s: State, a: Action)
    requires Enabled(c, s, a)
    requires a.Produce? || a.CallbackTry? || a.CallbackEvict? || a.CallbackRetry? || a.Close?
            || (a.Join? && s.worker.Joining?)
    ensures Downstream(Apply(c, s, a)) == Downstream(s)
  {
    hide Samples, Puts;
    assert Handed(Apply(c, s, a)) == Handed(s);
  }

  lemma PrefixesOfUpTo(down: seq<nat>, up: seq<nat>, n: nat)
    requires down + up == UpTo(n)
    ensures down == UpTo(|down|) && |down| + |up| == n
  {
    assert |down + up| == n;
    assert forall i | 0 <= i < |down| :: down[i] == (down + up)[i];
  }

  /** Windowed delivery: what the worker has handed on is always an unbroken start of production, and never shrinks. */
  lemma HandedOnStep(c: Config, s: State, a: Action)
    requires Enabled(c, s, a) && c.push == Windowed && Inv(c, s) && Inv(c, Apply(c, s, a))
    requires Downstream(s) == UpTo(|Downstream(s)|)
    ensures var t := Apply(c, s, a);
            Downstream(t) == UpTo(|Downstream(t)|) && |Downstream(s)| <= |Downstream(t)|
  {
    hide Downstream, Upstream, Apply, Enabled, UpTo, Inv, WindsDown, QueuesFit, DeleteComesLast, FileFollows, Ordered,
         KeepsNewest;
    var t := Apply(c, s, a);
    InvParts(c, s);
    InvParts(c, t);
    ProductionCounts(c, s, a);
    if t.failed {
      FailedKeepsDownstream(c, s, a);
    } else {
      UpstreamShrinks(c, s, a);
      PrefixesOfUpTo(Downstream(s), Upstream(s), s.produced);
      PrefixesOfUpTo(Downstream(t), Upstream(t), t.produced);
    }
  }

  lemma {:induction false} HandedOnIsPrefix(c: Config, schedule: seq<Action>, upto: nat)
    requires Play(c, schedule).Some? && c.push == Windowed && upto <= |schedule|
    ensures Play(c, schedule[..upto]).Some?
    ensures var s, t := Play(c, schedule[..upto]).value, Play(c, schedule).value;
            && Downstream(s) == UpTo(|Downstream(s)|) && Downstream(t) == UpTo(|Downstream(t)|)
            && |Downstream(s)| <= |Downstream(t)|
    decreases |schedule|
  {
    hide Downstream, Inv, Apply, Enabled, UpTo;
    if schedule == [] {
      NothingHandedOn(c);
    } else {
      var n := |schedule| - 1;
      var init, a := schedule[..n], schedule[n];
      ReachableInv(c, init);
      ReachableInv(c, schedule);
      HandedOnIsPrefix(c, init, if upto <= n then upto else n);
      HandedOnStep(c, Play(c, init).value, a);
      assert upto <= n ==> init[..upto] == schedule[..upto];
      assert init[..n] == init && schedule[..|schedule|] == schedule;
    }
  }

  lemma NothingHandedOn(c: Config)
    ensures Downstream(Init(c)) == UpTo(0)
  {
    assert Handed(Init(c)) + Init(c).pushq == [];
  }

  /**
   Main result: whatever fails, windowed delivery pushes an unbroken start of production, and by the return it has
   pushed every window that was ever completed, the one in the worker's hand included.
   */
  lemma CompletedWindowsAreDelivered(c: Config, schedule: seq<Action>, upto: nat)
    requires Play(c, schedule).Some? && c.push == Windowed && Play(c, schedule).value.worker.Returned?
    requires upto <= |schedule|
    ensures Play(c, schedule[..upto]).Some?
    ensures var delivered := Samples(Puts(Play(c, schedule).value.calls));
            && delivered == UpTo(|delivered|) && Downstream(Play(c, schedule[..upto]).value) <= delivered
  {
    HandedOnIsPrefix(c, schedule, upto);
    ReturnMeansDelivered(c, schedule);
    var s := Play(c, schedule).value;
    hide Play, Samples, Puts, Handed;
    assert Handed(s) + s.pushq == Handed(s);
    assert Downstream(s) == Samples(Puts(s.calls));
  }

  /** The file always holds the samples from the first on, and all of them when the worker returns without a failure. */
  lemma FileHoldsEverySample(c: Config, schedule: seq<Action>)
    requires Play(c, schedule).Some? && c.file
    ensures var s := Play(c, schedule).value;
            && |s.file| <= s.produced && s.file == UpTo(|s.file|)
            && (s.WorkerGone() && !s.failed ==> s.file == UpTo(s.produced))
  {
    ReachableInv(c, schedule);
    var s := Play(c, schedule).value;
    if s.WorkerGone() && !s.failed {
      assert Unwritten(s) == [];
      assert s.file + [] == s.file;
    }
  }

  /** After a failure no step touches the file. */
  lemma NothingWrittenAfterFailure(c: Config, schedule: seq<Action>, a: Action)
    requires Play(c, schedule).Some? && Enabled(c, Play(c, schedule).value, a)
    requires Play(c, schedule).value.failed
    ensures Apply(c, Play(c, schedule).value, a).file == Play(c, schedule).value.file
  {
    hide *;
    ReachableInv(c, schedule);
    var s := Play(c, schedule).value;
    InvParts(c, s);
    ProductionCounts(c, s, a);
    FileWithoutWriting(c, s, a);
  }

  lemma InvParts(c: Config, s: State)
    requires Inv(c, s)
    ensures QueuesFit(c, s) && WindsDown(c, s) && DeleteComesLast(c, s) && FileFollows(c, s)
    ensures Ordered(c, s) && KeepsNewest(c, s) && KeepsAll(c, s)
  {
  }

  // ---- Progress ----

  predicate IsWorkerAction(a: Action) {
    || a.Receive? || a.Write? || a.Handle? || a.Flush? || a.Overflow?
    || a.WorkerTry? || a.WorkerEvict? || a.WorkerRetry? || a.Finish? || a.HangUp?
  }

  /** Until the join, what the worker may do, writes and receives does not depend on delivery. */
  lemma WorkerIgnoresDelivery(c: Config, s: State, a: Action, q: seq<Event>, d: Deliverer)
    requires IsWorkerAction(a)
    ensures var u := s.(pushq := q, deliverer := d);
            && (Enabled(c, s, a) <==> Enabled(c, u, a))
            && (Enabled(c, s, a)
                ==> Apply(c, s, a).file == Apply(c, u, a).file && Apply(c, s, a).raw == Apply(c, u, a).raw)
  {
  }

  /** The worker waits only for a sample that is not there yet, or, at the very end, for delivery. */
  function NextWorkerAction(s: State): Action {
    match s.worker
    case Receiving => if s.raw != [] then Receive else Finish
    case Holding(_) => Write(true)
    case Written(_) => Handle(false)
    case Trying(_, _) => WorkerTry
    case Evicting(_, _) => WorkerEvict
    case Retrying(_, _) => WorkerRetry
    case Stopping => HangUp
    case Joining => Join
    case Returned => Join
  }

  lemma WorkerNeverBlocksOnDelivery(c: Config, s: State)
    requires !s.WorkerGone() && !(s.worker.Receiving? && s.raw == [] && s.open)
    ensures IsWorkerAction(NextWorkerAction(s)) && Enabled(c, s, NextWorkerAction(s))
  {
  }

  predicate IsDelivery(a: Action) {
    a.Take? || a.PutReturns? || a.DeleteReturns? || a.Quit?
  }

  /** The worker's own next steps, one after another, until it has let go of both queues. */
  lemma {:induction false} WorkerRunsOut(c: Config, s: State) returns (actions: seq<Action>)
    requires Inv(c, s) && !s.open
    ensures PlayFrom(c, s, actions).Some? && forall a <- actions :: IsWorkerAction(a)
    ensures var t := PlayFrom(c, s, actions).value;
            Inv(c, t) && t.WorkerGone() && !t.open && t.produced == s.produced && (!s.failed ==> !t.failed)
    decreases Measure(s)
  {
    hide Inv, Measure, WorkerWeight;
    actions := [];
    if !s.WorkerGone() {
      var a := NextWorkerAction(s);
      WorkerNeverBlocksOnDelivery(c, s);
      StepsAreBounded(c, s, a);
      StepKeepsInv(c, s, a);
      NextStepIsHarmless(c, s);
      var rest := WorkerRunsOut(c, Apply(c, s, a));
      actions := [a] + rest;
      assert actions[1..] == rest;
    }
  }

  lemma NextStepIsHarmless(c: Config, s: State)
    requires !s.WorkerGone() && Enabled(c, s, NextWorkerAction(s))
    ensures var t := Apply(c, s, NextWorkerAction(s));
            !IsDelivery(NextWorkerAction(s)) && t.open == s.open && t.produced == s.produced && t.failed == s.failed
  {
  }

  /**
   Main result: with HTTP stuck for good, from any reachable state whose producer has closed, the worker alone can still
   finish: it empties its queue, writes every sample to the file unless a write had failed before, and lets go.
   */
  lemma WorkerFinishesWithoutDelivery(c: Config, schedule: seq<Action>) returns (actions: seq<Action>)
    requires Play(c, schedule).Some? && !Play(c, schedule).value.open
    ensures var s := Play(c, schedule).value;
            && PlayFrom(c, s, actions).Some? && (forall a <- actions :: !IsDelivery(a))
            && var t := PlayFrom(c, s, actions).value;
               && t.WorkerGone() && t.deliverer == s.deliverer && t.calls == s.calls
               && (c.file && !s.failed ==> t.file == UpTo(s.produced))
  {
    ReachableInv(c, schedule);
    var s := Play(c, schedule).value;
    actions := WorkerRunsOut(c, s);
    WorkerLeavesDeliverer(c, s, actions);
    var t := PlayFrom(c, s, actions).value;
    hide Play, PlayFrom;
    if c.file && !s.failed {
      assert Unwritten(t) == [] && t.file + [] == t.file;
    }
  }

  lemma {:induction false} WorkerLeavesDeliverer(c: Config, s: State, actions: seq<Action>)
    requires PlayFrom(c, s, actions).Some? && forall a <- actions :: IsWorkerAction(a)
    ensures var t := PlayFrom(c, s, actions).value; t.deliverer == s.deliverer && t.calls == s.calls
    decreases |actions|
  {
    if actions != [] {
      assert actions[0] in actions;
      WorkerLeavesDeliverer(c, Apply(c, s, actions[0]), actions[1..]);
    }
  }

  function HandWeight(cb: Callback): nat {
    match cb
    case Idle => 0
    case First(_) => 14
    case Evict(_) => 13
    case Second(_) => 12
  }

  function WorkerWeight(w: Worker): nat {
    match w
    case Receiving => 3
    case Holding(_) => 12
    case Written(_) => 11
    case Trying(_, _) => 8
    case Evicting(_, _) => 7
    case Retrying(_, _) => 6
    case Stopping => 2
    case Joining => 1
    case Returned => 0
  }

  function DelivererWeight(d: Deliverer): nat {
    match d
    case Pushing(_) => 3
    case Waiting => 2
    case Deleting => 1
    case Done => 0
  }

  /** A bound on the steps still possible without producing another sample. */
  function Measure(s: State): nat {
    (if s.open then 1 else 0) + HandWeight(s.callback) + 10 * |s.raw| + WorkerWeight(s.worker) + 7 * |s.window|
    + 2 * |s.pushq| + DelivererWeight(s.deliverer)
  }

  lemma WorkerStepsAreBounded(c: Config, s: State, a: Action)
    requires Enabled(c, s, a) && IsWorkerAction(a)
    ensures Measure(Apply(c, s, a)) < Measure(s)
  {
  }

  lemma StepsAreBounded(c: Config, s: State, a: Action)
    requires Enabled(c, s, a) && !a.Produce?
    ensures Measure(Apply(c, s, a)) < Measure(s)
  {
    if IsWorkerAction(a) {
      WorkerStepsAreBounded(c, s, a);
    }
  }

  function PlayFrom(c: Config, s: State, actions: seq<Action>): Option<State>
    decreases |actions|
  {
    if actions == [] then Some(s)
    else if Enabled(c, s, actions[0]) then PlayFrom(c, Apply(c, s, actions[0]), actions[1..])
    else None
  }

  /** Main result: once the producer has closed, every schedule ends within the measure. */
  lemma {:induction false} ClosedPipelineTerminates(c: Config, s: State, actions: seq<Action>)
    requires !s.open && PlayFrom(c, s, actions).Some?
    ensures |actions| + Measure(PlayFrom(c, s, actions).value) <= Measure(s)
    decreases |actions|
  {
    if actions != [] {
      StepsAreBounded(c, s, actions[0]);
      ClosedPipelineTerminates(c, Apply(c, s, actions[0]), actions[1..]);
    }
  }

  function NextAction(s: State): Action {
    if !s.WorkerGone() then NextWorkerAction(s)
    else match s.deliverer
      case Waiting => if s.pushq != [] then Take else Quit
      case Pushing(_) => PutReturns
      case Deleting => DeleteReturns
      case Done => Join
  }

  /** ... and it ends only with the worker returned and delivery done: until then some step is enabled. */
  lemma ClosedPipelineProgresses(c: Config, schedule: seq<Action>)
    requires Play(c, schedule).Some? && !Play(c, schedule).value.open && !Play(c, schedule).value.worker.Returned?
    ensures Enabled(c, Play(c, schedule).value, NextAction(Play(c, schedule).value))
  {
    ReachableInv(c, schedule);
  }
}
