/** Interval samples, window summaries, and `aggregate_window` of src/metrics.rs. */
module Samples {
  import opened Wrappers

  /** An `f64`: a real number, or an infinity or NaN. Rounding is not modelled. */
  datatype F64 = Finite(value: real) | NonFinite

  datatype Role = Client | Server | OtherRole(code: int)

  datatype Direction = UnknownDirection | Sender | Receiver | OtherDirection(code: int)

  datatype Protocol = UnknownProtocol | Tcp | Udp | Sctp | OtherProtocol(code: int)

  /** What a window may not mix. */
  datatype Context = Context(role: Role, direction: Direction, streamCount: nat, protocol: Protocol)

  datatype Metrics = Metrics(
    timestamp: F64,
    context: Context,
    transferredBytes: F64,
    bandwidth: F64,
    tcpRetransmits: Option<F64>,
    tcpRtt: Option<F64>,
    tcpRttvar: Option<F64>,
    tcpSndCwnd: Option<F64>,
    tcpSndWnd: Option<F64>,
    tcpPmtu: Option<F64>,
    tcpReorderEvents: Option<F64>,
    udpPackets: Option<F64>,
    udpLostPackets: Option<F64>,
    udpJitter: Option<F64>,
    udpOutOfOrderPackets: Option<F64>,
    intervalDuration: F64,
    omitted: bool)

  datatype GaugeStats = GaugeStats(samples: nat, mean: real, min: real, max: real)

  datatype WindowMetrics = WindowMetrics(
    timestamp: F64,
    context: Context,
    duration: real,
    transferredBytes: real,
    bandwidth: GaugeStats,
    tcpRtt: GaugeStats,
    tcpRttvar: GaugeStats,
    tcpSndCwnd: GaugeStats,
    tcpSndWnd: GaugeStats,
    tcpPmtu: GaugeStats,
    udpJitter: GaugeStats,
    tcpRetransmits: Option<real>,
    tcpReorderEvents: Option<real>,
    udpPackets: Option<real>,
    udpLostPackets: Option<real>,
    udpOutOfOrderPackets: Option<real>,
    omittedIntervals: real)

  // ---- What a window summary is ----

  function FiniteNonnegative(value: F64): (r: real)
    ensures r >= 0.0
  {
    if value.Finite? && value.value > 0.0 then value.value else 0.0
  }

  /** One number taken from each sample. */
  type Measure = Metrics -> real

  /** One optional reading taken from each sample. */
  type Reading = Metrics -> Option<F64>

  function Sum(samples: seq<Metrics>, measure: Measure): real {
    if samples == [] then 0.0
    else Sum(samples[..|samples| - 1], measure) + measure(samples[|samples| - 1])
  }

  /** The finite readings, in order. */
  function Observed(samples: seq<Metrics>, reading: Reading): seq<real> {
    if samples == [] then []
    else Observed(samples[..|samples| - 1], reading) + FiniteReading(reading(samples[|samples| - 1]))
  }

  function FiniteReading(value: Option<F64>): seq<real> {
    if value.Some? && value.value.Finite? then [value.value.value] else []
  }

  function Total(values: seq<real>): real {
    if values == [] then 0.0 else Total(values[..|values| - 1]) + values[|values| - 1]
  }

  predicate IsMin(m: real, values: seq<real>) {
    m in values && forall i | 0 <= i < |values| :: m <= values[i]
  }

  predicate IsMax(m: real, values: seq<real>) {
    m in values && forall i | 0 <= i < |values| :: values[i] <= m
  }

  function Min(values: seq<real>): (m: real)
    requires values != []
    ensures IsMin(m, values)
  {
    var last := values[|values| - 1];
    if |values| == 1 then last
    else
      var m := Min(values[..|values| - 1]);
      if last < m then last else m
  }

  function Max(values: seq<real>): (m: real)
    requires values != []
    ensures IsMax(m, values)
  {
    var last := values[|values| - 1];
    if |values| == 1 then last
    else
      var m := Max(values[..|values| - 1]);
      if last > m then last else m
  }

  function Gauge(values: seq<real>): GaugeStats {
    if values == [] then GaugeStats(0, 0.0, 0.0, 0.0)
    else GaugeStats(|values|, Total(values) / |values| as real, Min(values), Max(values))
  }

  function Counter(samples: seq<Metrics>, reading: Reading): Option<real> {
    if Seen(samples, reading) then Some(Sum(samples, CounterMeasure(reading))) else None
  }

  /** A counter reading as a summand: absent, negative and non-finite readings count as zero. */
  function CounterMeasure(reading: Reading): Measure {
    (m: Metrics) => match reading(m) case Some(v) => FiniteNonnegative(v) case None => 0.0
  }

  const DURATION: Measure := (m: Metrics) => FiniteNonnegative(m.intervalDuration)
  const BYTES: Measure := (m: Metrics) => FiniteNonnegative(m.transferredBytes)
  const OMITTED: Measure := (m: Metrics) => if m.omitted then 1.0 else 0.0
  const BANDWIDTH: Reading := (m: Metrics) => Some(m.bandwidth)
  const TCP_RTT: Reading := (m: Metrics) => m.tcpRtt
  const TCP_RTTVAR: Reading := (m: Metrics) => m.tcpRttvar
  const TCP_SND_CWND: Reading := (m: Metrics) => m.tcpSndCwnd
  const TCP_SND_WND: Reading := (m: Metrics) => m.tcpSndWnd
  const TCP_PMTU: Reading := (m: Metrics) => m.tcpPmtu
  const UDP_JITTER: Reading := (m: Metrics) => m.udpJitter
  const TCP_RETRANSMITS: Reading := (m: Metrics) => m.tcpRetransmits
  const TCP_REORDER_EVENTS: Reading := (m: Metrics) => m.tcpReorderEvents
  const UDP_PACKETS: Reading := (m: Metrics) => m.udpPackets
  const UDP_LOST_PACKETS: Reading := (m: Metrics) => m.udpLostPackets
  const UDP_OUT_OF_ORDER_PACKETS: Reading := (m: Metrics) => m.udpOutOfOrderPackets

  /** The bandwidth statistics: as any gauge, but with the mean weighted by time when time passed. */
  function Bandwidth(samples: seq<Metrics>): GaugeStats {
    var stats := Gauge(Observed(samples, BANDWIDTH));
    var duration := Sum(samples, DURATION);
    if stats.samples > 0 then stats.(mean := MeanRate(Sum(samples, BYTES), duration, stats.mean)) else stats
  }

  /** Bits per second over the whole window, or the plain mean when no time passed. */
  function MeanRate(bytes: real, duration: real, plainMean: real): real {
    if duration > 0.0 then bytes * 8.0 / duration else plainMean
  }

  function Summary(samples: seq<Metrics>): WindowMetrics
    requires samples != []
  {
    WindowMetrics(
      samples[|samples| - 1].timestamp,
      samples[0].context,
      Sum(samples, DURATION),
      Sum(samples, BYTES),
      Bandwidth(samples),
      Gauge(Observed(samples, TCP_RTT)),
      Gauge(Observed(samples, TCP_RTTVAR)),
      Gauge(Observed(samples, TCP_SND_CWND)),
      Gauge(Observed(samples, TCP_SND_WND)),
      Gauge(Observed(samples, TCP_PMTU)),
      Gauge(Observed(samples, UDP_JITTER)),
      Counter(samples, TCP_RETRANSMITS),
      Counter(samples, TCP_REORDER_EVENTS),
      Counter(samples, UDP_PACKETS),
      Counter(samples, UDP_LOST_PACKETS),
      Counter(samples, UDP_OUT_OF_ORDER_PACKETS),
      Sum(samples, OMITTED))
  }

  // ---- The accumulators ----

  /** The fields of a gauge accumulator that has observed exactly `values`. */
  predicate Tallies(count: nat, sum: real, min: real, max: real, values: seq<real>) {
    && count == |values| && sum == Total(values)
    && (values != [] ==> min == Min(values) && max == Max(values))
  }

  class GaugeAccumulator {
    var count: nat
    var sum: real
    var min: real
    var max: real

    constructor ()
      ensures Tallies(count, sum, min, max, [])
    {
      count, sum, min, max := 0, 0.0, 0.0, 0.0;
    }

    method Observe(value: F64, ghost values: seq<real>)
      requires Tallies(count, sum, min, max, values)
      modifies this
      ensures Tallies(count, sum, min, max, values + FiniteReading(Some(value)))
    {
      if value.NonFinite? {
        assert values + [] == values;
        return;
      }
      var v := value.value;
      if count == 0 {
        min, max := v, v;
      } else {
        min := if v < min then v else min;
        max := if v > max then v else max;
      }
      count := count + 1;
      sum := sum + v;
      assert (values + [v])[..|values|] == values;
    }

    method ObserveOption(value: Option<F64>, ghost values: seq<real>)
      requires Tallies(count, sum, min, max, values)
      modifies this
      ensures Tallies(count, sum, min, max, values + FiniteReading(value))
    {
      match value
      case Some(v) => Observe(v, values);
      case None => assert values + [] == values;
    }

    method Finish(ghost values: seq<real>) returns (stats: GaugeStats)
      requires Tallies(count, sum, min, max, values)
      ensures stats == Gauge(values)
    {
      if count == 0 {
        return GaugeStats(0, 0.0, 0.0, 0.0);
      }
      stats := GaugeStats(count, sum / count as real, min, max);
    }

    /** Real arithmetic keeps the replacement mean finite, so only an empty gauge refuses it. */
    method FinishWithMean(mean: real, ghost values: seq<real>) returns (stats: GaugeStats)
      requires Tallies(count, sum, min, max, values)
      ensures stats == if values == [] then Gauge(values) else Gauge(values).(mean := mean)
    {
      stats := Finish(values);
      if count > 0 {
        stats := stats.(mean := mean);
      }
    }
  }

  class OptionalCounter {
    var observed: bool
    var sum: real

    constructor ()
      ensures !observed && sum == 0.0
    {
      observed, sum := false, 0.0;
    }

    method Observe(value: Option<F64>)
      modifies this
      ensures observed == (old(observed) || value.Some?)
      ensures sum == old(sum) + (match value case Some(v) => FiniteNonnegative(v) case None => 0.0)
    {
      match value
      case None =>
      case Some(v) =>
        observed := true;
        sum := sum + FiniteNonnegative(v);
    }

    method Finish(ghost samples: seq<Metrics>, ghost reading: Reading) returns (total: Option<real>)
      requires Counts(observed, sum, samples, reading)
      ensures total == Counter(samples, reading)
    {
      total := if observed then Some(sum) else None;
    }
  }

  /** The fields of an optional counter that has observed `samples` through `reading`. */
  predicate Counts(observed: bool, sum: real, samples: seq<Metrics>, reading: Reading) {
    sum == Sum(samples, CounterMeasure(reading)) && (observed <==> Seen(samples, reading))
  }

  predicate Seen(samples: seq<Metrics>, reading: Reading) {
    exists i | 0 <= i < |samples| :: reading(samples[i]).Some?
  }

  lemma ColumnsStart(samples: seq<Metrics>)
    ensures samples[..0] == [] && samples[..|samples|] == samples
    ensures Sum([], DURATION) == Sum([], BYTES) == Sum([], OMITTED) == 0.0
    ensures forall r: Reading :: Observed([], r) == [] && Counts(false, 0.0, [], r)
  {
  }

  lemma SumStep(samples: seq<Metrics>, i: nat, measure: Measure)
    requires i < |samples|
    ensures Sum(samples[..i + 1], measure) == Sum(samples[..i], measure) + measure(samples[i])
  {
    assert samples[..i + 1][..i] == samples[..i];
  }

  lemma ObservedStep(samples: seq<Metrics>, i: nat, reading: Reading)
    requires i < |samples|
    ensures Observed(samples[..i + 1], reading) == Observed(samples[..i], reading) + FiniteReading(reading(samples[i]))
  {
    assert samples[..i + 1][..i] == samples[..i];
  }

  lemma CountsStep(samples: seq<Metrics>, i: nat, observed: bool, sum: real, reading: Reading)
    requires i < |samples| && Counts(observed, sum, samples[..i], reading)
    ensures var value := reading(samples[i]);
            Counts(observed || value.Some?, sum + (match value case Some(v) => FiniteNonnegative(v) case None => 0.0),
                   samples[..i + 1], reading)
  {
    SumStep(samples, i, CounterMeasure(reading));
    assert samples[..i + 1] == samples[..i] + [samples[i]];
    assert samples[..i + 1][i] == samples[i];
  }

  lemma BandwidthParts(samples: seq<Metrics>)
    ensures var values := Observed(samples, BANDWIDTH);
            var duration := Sum(samples, DURATION);
            Bandwidth(samples) == if values == [] then Gauge(values)
                                  else Gauge(values)
                                      .(mean := MeanRate(Sum(samples, BYTES), duration, Gauge(values).mean))
  {
  }

  /** Five accumulators are separate objects. */
  predicate FiveApart<T(==)>(a: T, b: T, c: T, d: T, e: T) {
    a !in {b, c, d, e} && b !in {c, d, e} && c !in {d, e} && d != e
  }

  predicate SevenApart<T(==)>(a: T, b: T, c: T, d: T, e: T, f: T, g: T) {
    FiveApart(a, b, c, d, e) && f !in {a, b, c, d, e} && g !in {a, b, c, d, e, f}
  }

  /** The part of the loop body of `aggregate_window` that feeds the gauges. */
  method ObserveGauges(
    bandwidth: GaugeAccumulator, tcpRtt: GaugeAccumulator, tcpRttvar: GaugeAccumulator, tcpSndCwnd: GaugeAccumulator,
    tcpSndWnd: GaugeAccumulator, tcpPmtu: GaugeAccumulator, udpJitter: GaugeAccumulator,
    samples: seq<Metrics>, i: nat)
    requires i < |samples|
    requires SevenApart(bandwidth, tcpRtt, tcpRttvar, tcpSndCwnd, tcpSndWnd, tcpPmtu, udpJitter)
    requires Tallies(bandwidth.count, bandwidth.sum, bandwidth.min, bandwidth.max, Observed(samples[..i], BANDWIDTH))
    requires Tallies(tcpRtt.count, tcpRtt.sum, tcpRtt.min, tcpRtt.max, Observed(samples[..i], TCP_RTT))
    requires Tallies(tcpRttvar.count, tcpRttvar.sum, tcpRttvar.min, tcpRttvar.max, Observed(samples[..i], TCP_RTTVAR))
    requires Tallies(tcpSndCwnd.count, tcpSndCwnd.sum, tcpSndCwnd.min, tcpSndCwnd.max,
                     Observed(samples[..i], TCP_SND_CWND))
    requires Tallies(tcpSndWnd.count, tcpSndWnd.sum, tcpSndWnd.min, tcpSndWnd.max, Observed(samples[..i], TCP_SND_WND))
    requires Tallies(tcpPmtu.count, tcpPmtu.sum, tcpPmtu.min, tcpPmtu.max, Observed(samples[..i], TCP_PMTU))
    requires Tallies(udpJitter.count, udpJitter.sum, udpJitter.min, udpJitter.max, Observed(samples[..i], UDP_JITTER))
    modifies bandwidth, tcpRtt, tcpRttvar, tcpSndCwnd, tcpSndWnd, tcpPmtu, udpJitter
    ensures Tallies(bandwidth.count, bandwidth.sum, bandwidth.min, bandwidth.max, Observed(samples[..i + 1], BANDWIDTH))
    ensures Tallies(tcpRtt.count, tcpRtt.sum, tcpRtt.min, tcpRtt.max, Observed(samples[..i + 1], TCP_RTT))
    ensures Tallies(tcpRttvar.count, tcpRttvar.sum, tcpRttvar.min, tcpRttvar.max,
                    Observed(samples[..i + 1], TCP_RTTVAR))
    ensures Tallies(tcpSndCwnd.count, tcpSndCwnd.sum, tcpSndCwnd.min, tcpSndCwnd.max,
                    Observed(samples[..i + 1], TCP_SND_CWND))
    ensures Tallies(tcpSndWnd.count, tcpSndWnd.sum, tcpSndWnd.min, tcpSndWnd.max,
                    Observed(samples[..i + 1], TCP_SND_WND))
    ensures Tallies(tcpPmtu.count, tcpPmtu.sum, tcpPmtu.min, tcpPmtu.max, Observed(samples[..i + 1], TCP_PMTU))
    ensures Tallies(udpJitter.count, udpJitter.sum, udpJitter.min, udpJitter.max,
                    Observed(samples[..i + 1], UDP_JITTER))
  {
    hide Sum, Observed, FiniteReading, FiniteNonnegative, Tallies;
    ObservedStep(samples, i, BANDWIDTH);
    ObservedStep(samples, i, TCP_RTT);
    ObservedStep(samples, i, TCP_RTTVAR);
    ObservedStep(samples, i, TCP_SND_CWND);
    ObservedStep(samples, i, TCP_SND_WND);
    ObservedStep(samples, i, TCP_PMTU);
    ObservedStep(samples, i, UDP_JITTER);
    var metrics := samples[i];
    bandwidth.Observe(metrics.bandwidth, Observed(samples[..i], BANDWIDTH));
    tcpRtt.ObserveOption(metrics.tcpRtt, Observed(samples[..i], TCP_RTT));
    tcpRttvar.ObserveOption(metrics.tcpRttvar, Observed(samples[..i], TCP_RTTVAR));
    tcpSndCwnd.ObserveOption(metrics.tcpSndCwnd, Observed(samples[..i], TCP_SND_CWND));
    tcpSndWnd.ObserveOption(metrics.tcpSndWnd, Observed(samples[..i], TCP_SND_WND));
    tcpPmtu.ObserveOption(metrics.tcpPmtu, Observed(samples[..i], TCP_PMTU));
    udpJitter.ObserveOption(metrics.udpJitter, Observed(samples[..i], UDP_JITTER));
  }

  /** The part of the loop body of `aggregate_window` that feeds the counters. */
  method ObserveCounters(
    tcpRetransmits: OptionalCounter, tcpReorderEvents: OptionalCounter, udpPackets: OptionalCounter,
    udpLostPackets: OptionalCounter, udpOutOfOrderPackets: OptionalCounter,
    samples: seq<Metrics>, i: nat)
    requires i < |samples|
    requires FiveApart(tcpRetransmits, tcpReorderEvents, udpPackets, udpLostPackets, udpOutOfOrderPackets)
    requires Counts(tcpRetransmits.observed, tcpRetransmits.sum, samples[..i], TCP_RETRANSMITS)
    requires Counts(tcpReorderEvents.observed, tcpReorderEvents.sum, samples[..i], TCP_REORDER_EVENTS)
    requires Counts(udpPackets.observed, udpPackets.sum, samples[..i], UDP_PACKETS)
    requires Counts(udpLostPackets.observed, udpLostPackets.sum, samples[..i], UDP_LOST_PACKETS)
    requires Counts(udpOutOfOrderPackets.observed, udpOutOfOrderPackets.sum, samples[..i], UDP_OUT_OF_ORDER_PACKETS)
    modifies tcpRetransmits, tcpReorderEvents, udpPackets, udpLostPackets, udpOutOfOrderPackets
    ensures Counts(tcpRetransmits.observed, tcpRetransmits.sum, samples[..i + 1], TCP_RETRANSMITS)
    ensures Counts(tcpReorderEvents.observed, tcpReorderEvents.sum, samples[..i + 1], TCP_REORDER_EVENTS)
    ensures Counts(udpPackets.observed, udpPackets.sum, samples[..i + 1], UDP_PACKETS)
    ensures Counts(udpLostPackets.observed, udpLostPackets.sum, samples[..i + 1], UDP_LOST_PACKETS)
    ensures Counts(udpOutOfOrderPackets.observed, udpOutOfOrderPackets.sum, samples[..i + 1], UDP_OUT_OF_ORDER_PACKETS)
  {
    hide Sum, Counts, CounterMeasure, FiniteNonnegative;
    CountsStep(samples, i, tcpRetransmits.observed, tcpRetransmits.sum, TCP_RETRANSMITS);
    CountsStep(samples, i, tcpReorderEvents.observed, tcpReorderEvents.sum, TCP_REORDER_EVENTS);
    CountsStep(samples, i, udpPackets.observed, udpPackets.sum, UDP_PACKETS);
    CountsStep(samples, i, udpLostPackets.observed, udpLostPackets.sum, UDP_LOST_PACKETS);
    CountsStep(samples, i, udpOutOfOrderPackets.observed, udpOutOfOrderPackets.sum, UDP_OUT_OF_ORDER_PACKETS);
    var metrics := samples[i];
    tcpRetransmits.Observe(metrics.tcpRetransmits);
    tcpReorderEvents.Observe(metrics.tcpReorderEvents);
    udpPackets.Observe(metrics.udpPackets);
    udpLostPackets.Observe(metrics.udpLostPackets);
    udpOutOfOrderPackets.Observe(metrics.udpOutOfOrderPackets);
  }

  /** The loop of `aggregate_window` over all samples. */
  method ObserveSamples(
    bandwidth: GaugeAccumulator, tcpRtt: GaugeAccumulator, tcpRttvar: GaugeAccumulator, tcpSndCwnd: GaugeAccumulator,
    tcpSndWnd: GaugeAccumulator, tcpPmtu: GaugeAccumulator, udpJitter: GaugeAccumulator,
    tcpRetransmits: OptionalCounter, tcpReorderEvents: OptionalCounter, udpPackets: OptionalCounter,
    udpLostPackets: OptionalCounter, udpOutOfOrderPackets: OptionalCounter,
    samples: seq<Metrics>)
    returns (duration: real, transferredBytes: real, omittedIntervals: real)
    requires SevenApart(bandwidth, tcpRtt, tcpRttvar, tcpSndCwnd, tcpSndWnd, tcpPmtu, udpJitter)
    requires FiveApart(tcpRetransmits, tcpReorderEvents, udpPackets, udpLostPackets, udpOutOfOrderPackets)
    requires Tallies(bandwidth.count, bandwidth.sum, bandwidth.min, bandwidth.max, Observed([], BANDWIDTH))
    requires Tallies(tcpRtt.count, tcpRtt.sum, tcpRtt.min, tcpRtt.max, Observed([], TCP_RTT))
    requires Tallies(tcpRttvar.count, tcpRttvar.sum, tcpRttvar.min, tcpRttvar.max, Observed([], TCP_RTTVAR))
    requires Tallies(tcpSndCwnd.count, tcpSndCwnd.sum, tcpSndCwnd.min, tcpSndCwnd.max, Observed([], TCP_SND_CWND))
    requires Tallies(tcpSndWnd.count, tcpSndWnd.sum, tcpSndWnd.min, tcpSndWnd.max, Observed([], TCP_SND_WND))
    requires Tallies(tcpPmtu.count, tcpPmtu.sum, tcpPmtu.min, tcpPmtu.max, Observed([], TCP_PMTU))
    requires Tallies(udpJitter.count, udpJitter.sum, udpJitter.min, udpJitter.max, Observed([], UDP_JITTER))
    requires Counts(tcpRetransmits.observed, tcpRetransmits.sum, [], TCP_RETRANSMITS)
    requires Counts(tcpReorderEvents.observed, tcpReorderEvents.sum, [], TCP_REORDER_EVENTS)
    requires Counts(udpPackets.observed, udpPackets.sum, [], UDP_PACKETS)
    requires Counts(udpLostPackets.observed, udpLostPackets.sum, [], UDP_LOST_PACKETS)
    requires Counts(udpOutOfOrderPackets.observed, udpOutOfOrderPackets.sum, [], UDP_OUT_OF_ORDER_PACKETS)
    modifies bandwidth, tcpRtt, tcpRttvar, tcpSndCwnd, tcpSndWnd, tcpPmtu, udpJitter
    modifies tcpRetransmits, tcpReorderEvents, udpPackets, udpLostPackets, udpOutOfOrderPackets
    ensures duration == Sum(samples, DURATION) && transferredBytes == Sum(samples, BYTES)
    ensures omittedIntervals == Sum(samples, OMITTED)
    ensures Tallies(bandwidth.count, bandwidth.sum, bandwidth.min, bandwidth.max, Observed(samples, BANDWIDTH))
    ensures Tallies(tcpRtt.count, tcpRtt.sum, tcpRtt.min, tcpRtt.max, Observed(samples, TCP_RTT))
    ensures Tallies(tcpRttvar.count, tcpRttvar.sum, tcpRttvar.min, tcpRttvar.max, Observed(samples, TCP_RTTVAR))
    ensures Tallies(tcpSndCwnd.count, tcpSndCwnd.sum, tcpSndCwnd.min, tcpSndCwnd.max, Observed(samples, TCP_SND_CWND))
    ensures Tallies(tcpSndWnd.count, tcpSndWnd.sum, tcpSndWnd.min, tcpSndWnd.max, Observed(samples, TCP_SND_WND))
    ensures Tallies(tcpPmtu.count, tcpPmtu.sum, tcpPmtu.min, tcpPmtu.max, Observed(samples, TCP_PMTU))
    ensures Tallies(udpJitter.count, udpJitter.sum, udpJitter.min, udpJitter.max, Observed(samples, UDP_JITTER))
    ensures Counts(tcpRetransmits.observed, tcpRetransmits.sum, samples, TCP_RETRANSMITS)
    ensures Counts(tcpReorderEvents.observed, tcpReorderEvents.sum, samples, TCP_REORDER_EVENTS)
    ensures Counts(udpPackets.observed, udpPackets.sum, samples, UDP_PACKETS)
    ensures Counts(udpLostPackets.observed, udpLostPackets.sum, samples, UDP_LOST_PACKETS)
    ensures Counts(udpOutOfOrderPackets.observed, udpOutOfOrderPackets.sum, samples, UDP_OUT_OF_ORDER_PACKETS)
  {
    hide Sum, Observed, FiniteReading, FiniteNonnegative, Tallies, Gauge, Counts, Counter, CounterMeasure;
    duration, transferredBytes, omittedIntervals := 0.0, 0.0, 0.0;
    ColumnsStart(samples);
    for i := 0 to |samples|
      invariant duration == Sum(samples[..i], DURATION)
      invariant transferredBytes == Sum(samples[..i], BYTES)
      invariant omittedIntervals == Sum(samples[..i], OMITTED)
      invariant Tallies(bandwidth.count, bandwidth.sum, bandwidth.min, bandwidth.max, Observed(samples[..i], BANDWIDTH))
      invariant Tallies(tcpRtt.count, tcpRtt.sum, tcpRtt.min, tcpRtt.max, Observed(samples[..i], TCP_RTT))
      invariant Tallies(tcpRttvar.count, tcpRttvar.sum, tcpRttvar.min, tcpRttvar.max,
                        Observed(samples[..i], TCP_RTTVAR))
      invariant Tallies(tcpSndCwnd.count, tcpSndCwnd.sum, tcpSndCwnd.min, tcpSndCwnd.max,
                        Observed(samples[..i], TCP_SND_CWND))
      invariant Tallies(tcpSndWnd.count, tcpSndWnd.sum, tcpSndWnd.min, tcpSndWnd.max,
                        Observed(samples[..i], TCP_SND_WND))
      invariant Tallies(tcpPmtu.count, tcpPmtu.sum, tcpPmtu.min, tcpPmtu.max, Observed(samples[..i], TCP_PMTU))
      invariant Tallies(udpJitter.count, udpJitter.sum, udpJitter.min, udpJitter.max,
                        Observed(samples[..i], UDP_JITTER))
      invariant Counts(tcpRetransmits.observed, tcpRetransmits.sum, samples[..i], TCP_RETRANSMITS)
      invariant Counts(tcpReorderEvents.observed, tcpReorderEvents.sum, samples[..i], TCP_REORDER_EVENTS)
      invariant Counts(udpPackets.observed, udpPackets.sum, samples[..i], UDP_PACKETS)
      invariant Counts(udpLostPackets.observed, udpLostPackets.sum, samples[..i], UDP_LOST_PACKETS)
      invariant Counts(udpOutOfOrderPackets.observed, udpOutOfOrderPackets.sum, samples[..i], UDP_OUT_OF_ORDER_PACKETS)
    {
      var metrics := samples[i];
      SumStep(samples, i, DURATION);
      SumStep(samples, i, BYTES);
      SumStep(samples, i, OMITTED);
      duration := duration + FiniteNonnegative(metrics.intervalDuration);
      transferredBytes := transferredBytes + FiniteNonnegative(metrics.transferredBytes);
      ObserveGauges(bandwidth, tcpRtt, tcpRttvar, tcpSndCwnd, tcpSndWnd, tcpPmtu, udpJitter, samples, i);
      ObserveCounters(tcpRetransmits, tcpReorderEvents, udpPackets, udpLostPackets, udpOutOfOrderPackets, samples, i);
      if metrics.omitted {
        omittedIntervals := omittedIntervals + 1.0;
      }
    }
  }

  method AggregateWindow(samples: seq<Metrics>) returns (window: Option<WindowMetrics>)
    ensures window == if samples == [] then None else Some(Summary(samples))
  {
    if samples == [] {
      return None;
    }
    hide Sum, Observed, FiniteReading, FiniteNonnegative, Tallies, Gauge, Counts, Counter, CounterMeasure, Bandwidth,
         MeanRate;
    var bandwidth := new GaugeAccumulator();
    var tcpRtt := new GaugeAccumulator();
    var tcpRttvar := new GaugeAccumulator();
    var tcpSndCwnd := new GaugeAccumulator();
    var tcpSndWnd := new GaugeAccumulator();
    var tcpPmtu := new GaugeAccumulator();
    var udpJitter := new GaugeAccumulator();
    var tcpRetransmits := new OptionalCounter();
    var tcpReorderEvents := new OptionalCounter();
    var udpPackets := new OptionalCounter();
    var udpLostPackets := new OptionalCounter();
    var udpOutOfOrderPackets := new OptionalCounter();
    ColumnsStart(samples);
    var duration, transferredBytes, omittedIntervals := ObserveSamples(
      bandwidth, tcpRtt, tcpRttvar, tcpSndCwnd, tcpSndWnd, tcpPmtu, udpJitter,
      tcpRetransmits, tcpReorderEvents, udpPackets, udpLostPackets, udpOutOfOrderPackets, samples);
    var plainBandwidth := bandwidth.Finish(Observed(samples, BANDWIDTH));
    var bandwidthMean := MeanRate(transferredBytes, duration, plainBandwidth.mean);
    var bandwidthStats := bandwidth.FinishWithMean(bandwidthMean, Observed(samples, BANDWIDTH));
    var tcpRttStats := tcpRtt.Finish(Observed(samples, TCP_RTT));
    var tcpRttvarStats := tcpRttvar.Finish(Observed(samples, TCP_RTTVAR));
    var tcpSndCwndStats := tcpSndCwnd.Finish(Observed(samples, TCP_SND_CWND));
    var tcpSndWndStats := tcpSndWnd.Finish(Observed(samples, TCP_SND_WND));
    var tcpPmtuStats := tcpPmtu.Finish(Observed(samples, TCP_PMTU));
    var udpJitterStats := udpJitter.Finish(Observed(samples, UDP_JITTER));
    var tcpRetransmitsTotal := tcpRetransmits.Finish(samples, TCP_RETRANSMITS);
    var tcpReorderEventsTotal := tcpReorderEvents.Finish(samples, TCP_REORDER_EVENTS);
    var udpPacketsTotal := udpPackets.Finish(samples, UDP_PACKETS);
    var udpLostPacketsTotal := udpLostPackets.Finish(samples, UDP_LOST_PACKETS);
    var udpOutOfOrderPacketsTotal := udpOutOfOrderPackets.Finish(samples, UDP_OUT_OF_ORDER_PACKETS);
    BandwidthParts(samples);
    window := Some(WindowMetrics(
        samples[|samples| - 1].timestamp, samples[0].context, duration, transferredBytes, bandwidthStats,
        tcpRttStats, tcpRttvarStats, tcpSndCwndStats, tcpSndWndStats, tcpPmtuStats, udpJitterStats,
        tcpRetransmitsTotal, tcpReorderEventsTotal, udpPacketsTotal, udpLostPacketsTotal, udpOutOfOrderPacketsTotal,
        omittedIntervals));
  }

  // ---- Conservation: totals do not depend on where windows are cut ----

  function Flatten<T>(windows: seq<seq<T>>): seq<T> {
    if windows == [] then [] else Flatten(windows[..|windows| - 1]) + windows[|windows| - 1]
  }

  predicate AllNonempty(windows: seq<seq<Metrics>>) {
    forall i | 0 <= i < |windows| :: windows[i] != []
  }

  function Summaries(windows: seq<seq<Metrics>>): (summaries: seq<WindowMetrics>)
    requires AllNonempty(windows)
    ensures |summaries| == |windows|
    ensures forall i | 0 <= i < |windows| :: summaries[i] == Summary(windows[i])
  {
    seq(|windows|, i requires 0 <= i < |windows| => Summary(windows[i]))
  }

  datatype Totals = Totals(
    duration: real, bytes: real, omitted: real,
    retransmits: real, reorderEvents: real, packets: real, lostPackets: real, outOfOrderPackets: real)
  {
    function Plus(other: Totals): Totals {
      Totals(duration + other.duration, bytes + other.bytes, omitted + other.omitted,
             retransmits + other.retransmits, reorderEvents + other.reorderEvents, packets + other.packets,
             lostPackets + other.lostPackets, outOfOrderPackets + other.outOfOrderPackets)
    }
  }

  function OrZero(counter: Option<real>): real {
    if counter.Some? then counter.value else 0.0
  }

  function WindowTotals(w: WindowMetrics): Totals {
    Totals(w.duration, w.transferredBytes, w.omittedIntervals,
           OrZero(w.tcpRetransmits), OrZero(w.tcpReorderEvents), OrZero(w.udpPackets),
           OrZero(w.udpLostPackets), OrZero(w.udpOutOfOrderPackets))
  }

  function EmittedTotals(emitted: seq<WindowMetrics>): Totals {
    if emitted == [] then Totals(0.0, 0.0, 0.0, 0.0, 0.0, 0.0, 0.0, 0.0)
    else EmittedTotals(emitted[..|emitted| - 1]).Plus(WindowTotals(emitted[|emitted| - 1]))
  }

  /** The sanitised sums over the raw samples. */
  function SampleTotals(samples: seq<Metrics>): Totals {
    Totals(Sum(samples, DURATION), Sum(samples, BYTES), Sum(samples, OMITTED),
           Sum(samples, CounterMeasure(TCP_RETRANSMITS)), Sum(samples, CounterMeasure(TCP_REORDER_EVENTS)),
           Sum(samples, CounterMeasure(UDP_PACKETS)), Sum(samples, CounterMeasure(UDP_LOST_PACKETS)),
           Sum(samples, CounterMeasure(UDP_OUT_OF_ORDER_PACKETS)))
  }

  lemma {:induction false} SumOfConcat(a: seq<Metrics>, b: seq<Metrics>, measure: Measure)
    ensures Sum(a + b, measure) == Sum(a, measure) + Sum(b, measure)
  {
    if b == [] {
      assert a + b == a;
    } else {
      SumOfConcat(a, b[..|b| - 1], measure);
      assert (a + b)[..|a + b| - 1] == a + b[..|b| - 1];
    }
  }

  lemma {:induction false} UnseenCountsZero(samples: seq<Metrics>, reading: Reading)
    requires !Seen(samples, reading)
    ensures Sum(samples, CounterMeasure(reading)) == 0.0
  {
    if samples != [] {
      var rest := samples[..|samples| - 1];
      forall i | 0 <= i < |rest| ensures !reading(rest[i]).Some? {
        assert rest[i] == samples[i];
      }
      UnseenCountsZero(rest, reading);
      assert !reading(samples[|samples| - 1]).Some?;
    }
  }

  lemma CounterTotal(samples: seq<Metrics>, reading: Reading)
    ensures OrZero(Counter(samples, reading)) == Sum(samples, CounterMeasure(reading))
  {
    if !Seen(samples, reading) {
      UnseenCountsZero(samples, reading);
    }
  }

  lemma SummaryTotals(samples: seq<Metrics>)
    requires samples != []
    ensures WindowTotals(Summary(samples)) == SampleTotals(samples)
  {
    CounterTotal(samples, TCP_RETRANSMITS);
    CounterTotal(samples, TCP_REORDER_EVENTS);
    CounterTotal(samples, UDP_PACKETS);
    CounterTotal(samples, UDP_LOST_PACKETS);
    CounterTotal(samples, UDP_OUT_OF_ORDER_PACKETS);
  }

  lemma SampleTotalsOfConcat(a: seq<Metrics>, b: seq<Metrics>)
    ensures SampleTotals(a + b) == SampleTotals(a).Plus(SampleTotals(b))
  {
    SumOfConcat(a, b, DURATION);
    SumOfConcat(a, b, BYTES);
    SumOfConcat(a, b, OMITTED);
    SumOfConcat(a, b, CounterMeasure(TCP_RETRANSMITS));
    SumOfConcat(a, b, CounterMeasure(TCP_REORDER_EVENTS));
    SumOfConcat(a, b, CounterMeasure(UDP_PACKETS));
    SumOfConcat(a, b, CounterMeasure(UDP_LOST_PACKETS));
    SumOfConcat(a, b, CounterMeasure(UDP_OUT_OF_ORDER_PACKETS));
  }

  lemma NoWindows()
    ensures SampleTotals([]) == EmittedTotals([])
  {
  }

  /** Main result: whatever the segmentation, the summaries add up to the sanitised sums over all samples. */
  lemma {:induction false} TotalsAreConserved(windows: seq<seq<Metrics>>)
    requires AllNonempty(windows)
    ensures EmittedTotals(Summaries(windows)) == SampleTotals(Flatten(windows))
  {
    hide Summary, WindowTotals, SampleTotals, Totals.Plus;
    if windows == [] {
      NoWindows();
      assert Summaries(windows) == [];
    } else {
      var init, last := windows[..|windows| - 1], windows[|windows| - 1];
      TotalsAreConserved(init);
      assert Summaries(windows)[..|windows| - 1] == Summaries(init);
      SummaryTotals(last);
      SampleTotalsOfConcat(Flatten(init), last);
    }
  }

  // ---- The statistics of a window are ordered ----

  lemma {:induction false} TotalIsBounded(values: seq<real>, low: real, high: real)
    requires forall i | 0 <= i < |values| :: low <= values[i] <= high
    ensures low * |values| as real <= Total(values) <= high * |values| as real
  {
    if values != [] {
      var rest := values[..|values| - 1];
      TotalIsBounded(rest, low, high);
      assert low * |values| as real == low * |rest| as real + low;
      assert high * |values| as real == high * |rest| as real + high;
    }
  }

  lemma MeanBetween(total: real, n: real, low: real, high: real)
    requires n > 0.0 && low * n <= total <= high * n
    ensures low <= total / n <= high
  {
    assert total / n * n == total;
  }

  lemma GaugeIsOrdered(values: seq<real>)
    requires values != []
    ensures Gauge(values).min <= Gauge(values).mean <= Gauge(values).max
    ensures forall i | 0 <= i < |values| :: Gauge(values).min <= values[i] <= Gauge(values).max
    ensures Gauge(values).min in values && Gauge(values).max in values
  {
    TotalIsBounded(values, Min(values), Max(values));
    MeanBetween(Total(values), |values| as real, Min(values), Max(values));
  }

  /** A sample whose bandwidth is its bytes over its duration, as the native callback computes it. */
  predicate Consistent(m: Metrics) {
    && m.intervalDuration.Finite? && m.intervalDuration.value > 0.0
    && m.transferredBytes.Finite? && m.transferredBytes.value >= 0.0
    && m.bandwidth.Finite? && m.bandwidth.value == BitRate(m.transferredBytes.value, m.intervalDuration.value)
  }

  function BitRate(bytes: real, duration: real): real
    requires duration > 0.0
  {
    bytes * 8.0 / duration
  }

  lemma {:induction false} BitsAreBounded(samples: seq<Metrics>, low: real, high: real)
    requires forall i | 0 <= i < |samples| :: Consistent(samples[i]) && low <= samples[i].bandwidth.value <= high
    ensures low * Sum(samples, DURATION) <= Sum(samples, BYTES) * 8.0 <= high * Sum(samples, DURATION)
    ensures samples != [] ==> Sum(samples, DURATION) > 0.0
    ensures Sum(samples, DURATION) >= 0.0
  {
    if samples != [] {
      var rest, last := samples[..|samples| - 1], samples[|samples| - 1];
      BitsAreBounded(rest, low, high);
      var d, b := last.intervalDuration.value, last.transferredBytes.value;
      assert b * 8.0 / d * d == b * 8.0;
      assert low * d <= b * 8.0 <= high * d;
      assert low * (Sum(rest, DURATION) + d) == low * Sum(rest, DURATION) + low * d;
      assert high * (Sum(rest, DURATION) + d) == high * Sum(rest, DURATION) + high * d;
    }
  }

  lemma {:induction false} ObservedBandwidths(samples: seq<Metrics>)
    requires forall i | 0 <= i < |samples| :: samples[i].bandwidth.Finite?
    ensures |Observed(samples, BANDWIDTH)| == |samples|
    ensures forall i | 0 <= i < |samples| :: Observed(samples, BANDWIDTH)[i] == samples[i].bandwidth.value
  {
    if samples != [] {
      ObservedBandwidths(samples[..|samples| - 1]);
    }
  }

  lemma MeanRateIsOrdered(bytes: real, duration: real, plainMean: real, low: real, high: real)
    requires duration > 0.0 && low * duration <= bytes * 8.0 <= high * duration
    ensures low <= MeanRate(bytes, duration, plainMean) <= high
  {
    MeanBetween(bytes * 8.0, duration, low, high);
  }

  /** Main result: the time-weighted bandwidth mean of consistent samples lies between their extremes. */
  lemma BandwidthIsOrdered(samples: seq<Metrics>)
    requires samples != [] && forall i | 0 <= i < |samples| :: Consistent(samples[i])
    ensures var stats := Bandwidth(samples);
            && stats.samples == |samples|
            && stats.min <= stats.mean <= stats.max
            && forall i | 0 <= i < |samples| ::
                 samples[i].bandwidth.Finite? && stats.min <= samples[i].bandwidth.value <= stats.max
  {
    hide Sum, Observed, MeanRate, BitRate, Min, Max, Total, FiniteNonnegative;
    ObservedBandwidths(samples);
    var values := Observed(samples, BANDWIDTH);
    forall i | 0 <= i < |samples| ensures Min(values) <= samples[i].bandwidth.value <= Max(values) {
      assert values[i] == samples[i].bandwidth.value;
    }
    BitsAreBounded(samples, Min(values), Max(values));
    MeanRateIsOrdered(Sum(samples, BYTES), Sum(samples, DURATION), Gauge(values).mean, Min(values), Max(values));
    BandwidthParts(samples);
  }

  // ---- A summary from the summaries of its parts ----

  /** The count, least and greatest of two gauges taken together. */
  predicate MergesExtremes(whole: GaugeStats, a: GaugeStats, b: GaugeStats) {
    && whole.samples == a.samples + b.samples
    && (a.samples == 0 ==> whole.min == b.min && whole.max == b.max)
    && (b.samples == 0 ==> whole.min == a.min && whole.max == a.max)
    && (a.samples > 0 && b.samples > 0 ==>
          && whole.min == (if a.min < b.min then a.min else b.min)
          && whole.max == (if a.max > b.max then a.max else b.max))
  }

  /** And their mean, which weighs every value alike. */
  predicate Merges(whole: GaugeStats, a: GaugeStats, b: GaugeStats) {
    && MergesExtremes(whole, a, b)
    && whole.mean * whole.samples as real == a.mean * a.samples as real + b.mean * b.samples as real
    && (whole.samples == 0 ==> whole.mean == 0.0)
  }

  lemma GaugeOfOne(x: real)
    ensures Gauge([x]) == GaugeStats(1, x, x, x)
  {
    assert [x][..0] == [];
    assert Total([x]) == Total([]) + x == x;
  }

  lemma {:induction false} TotalOfConcat(a: seq<real>, b: seq<real>)
    ensures Total(a + b) == Total(a) + Total(b)
  {
    if b == [] {
      assert a + b == a;
    } else {
      TotalOfConcat(a, b[..|b| - 1]);
      assert (a + b)[..|a + b| - 1] == a + b[..|b| - 1];
    }
  }

  lemma MinIsTheMin(m: real, values: seq<real>)
    requires values != []
    ensures IsMin(m, values) ==> m == Min(values)
    ensures IsMax(m, values) ==> m == Max(values)
  {
  }

  lemma ExtremesOfConcat(a: seq<real>, b: seq<real>)
    requires a != [] && b != []
    ensures Min(a + b) == if Min(a) < Min(b) then Min(a) else Min(b)
    ensures Max(a + b) == if Max(a) > Max(b) then Max(a) else Max(b)
  {
    var least, most := if Min(a) < Min(b) then Min(a) else Min(b), if Max(a) > Max(b) then Max(a) else Max(b);
    hide Min, Max;
    assert IsMin(Min(a), a) && IsMin(Min(b), b) && IsMax(Max(a), a) && IsMax(Max(b), b);
    assert least in a + b && most in a + b;
    forall i | 0 <= i < |a + b| ensures least <= (a + b)[i] <= most {
      assert (a + b)[i] == if i < |a| then a[i] else b[i - |a|];
    }
    MinIsTheMin(least, a + b);
    MinIsTheMin(most, a + b);
  }

  lemma GaugeParts(values: seq<real>)
    ensures var gauge := Gauge(values);
            && gauge.samples == |values|
            && gauge.mean * |values| as real == Total(values)
            && (values == [] ==> gauge == GaugeStats(0, 0.0, 0.0, 0.0))
            && (values != [] ==> gauge.min == Min(values) && gauge.max == Max(values))
  {
    hide Min, Max, Total;
    NoTotal();
    DividedBack(Total(values), |values|);
  }

  lemma NoTotal()
    ensures Total([]) == 0.0
  {
  }

  lemma DividedBack(total: real, count: nat)
    ensures count > 0 ==> total / count as real * count as real == total
  {
  }

  /** Main result on gauges: one value is its own mean, and the gauge of two stretches weighs every value alike. */
  lemma GaugeOfConcat(a: seq<real>, b: seq<real>)
    ensures Merges(Gauge(a + b), Gauge(a), Gauge(b))
  {
    hide Gauge, Min, Max, Total, IsMin, IsMax;
    GaugeParts(a);
    GaugeParts(b);
    GaugeParts(a + b);
    TotalOfConcat(a, b);
    if a == [] {
      assert a + b == b;
    } else if b == [] {
      assert a + b == a;
    } else {
      ExtremesOfConcat(a, b);
    }
  }

  lemma {:induction false} ObservedOfConcat(a: seq<Metrics>, b: seq<Metrics>, reading: Reading)
    ensures Observed(a + b, reading) == Observed(a, reading) + Observed(b, reading)
  {
    if b == [] {
      assert a + b == a;
    } else {
      hide FiniteReading;
      var init, last := b[..|b| - 1], b[|b| - 1];
      ObservedOfConcat(a, init, reading);
      assert (a + b)[..|a + b| - 1] == a + init;
      Regrouped(Observed(a, reading), Observed(init, reading), FiniteReading(reading(last)));
    }
  }

  lemma Regrouped<T>(a: seq<T>, b: seq<T>, c: seq<T>)
    ensures a + b + c == a + (b + c)
  {
  }

  function AddedTotals(a: Option<real>, b: Option<real>): Option<real> {
    if a.None? then b else if b.None? then a else Some(a.value + b.value)
  }

  lemma CounterOfConcat(a: seq<Metrics>, b: seq<Metrics>, reading: Reading)
    ensures Counter(a + b, reading) == AddedTotals(Counter(a, reading), Counter(b, reading))
  {
    hide Sum;
    SumOfConcat(a, b, CounterMeasure(reading));
    if Seen(a, reading) {
      var i :| 0 <= i < |a| && reading(a[i]).Some?;
      assert (a + b)[i] == a[i];
    } else {
      UnseenCountsZero(a, reading);
    }
    if Seen(b, reading) {
      var i :| 0 <= i < |b| && reading(b[i]).Some?;
      assert (a + b)[|a| + i] == b[i];
    } else {
      UnseenCountsZero(b, reading);
    }
    if Seen(a + b, reading) {
      var i :| 0 <= i < |a + b| && reading((a + b)[i]).Some?;
      assert (a + b)[i] == if i < |a| then a[i] else b[i - |a|];
    }
  }

  lemma {:induction false} DurationIsNonNegative(samples: seq<Metrics>)
    ensures Sum(samples, DURATION) >= 0.0
  {
    if samples != [] {
      DurationIsNonNegative(samples[..|samples| - 1]);
    }
  }

  /** The bandwidth of two stretches: extremes as any gauge, and the mean of all bits over all the time there was. */
  lemma BandwidthOfConcat(a: seq<Metrics>, b: seq<Metrics>)
    ensures MergesExtremes(Bandwidth(a + b), Bandwidth(a), Bandwidth(b))
    ensures Sum(a + b, DURATION) > 0.0 && Bandwidth(a + b).samples > 0
            ==> Bandwidth(a + b).mean * Sum(a + b, DURATION) == 8.0 * Sum(a + b, BYTES)
    ensures Sum(a + b, DURATION) == 0.0 ==> Merges(Bandwidth(a + b), Bandwidth(a), Bandwidth(b))
  {
    hide Sum, Observed, Gauge;
    ObservedOfConcat(a, b, BANDWIDTH);
    GaugeOfConcat(Observed(a, BANDWIDTH), Observed(b, BANDWIDTH));
    SumOfConcat(a, b, DURATION);
    DurationIsNonNegative(a);
    DurationIsNonNegative(b);
    GaugeCounts(Observed(a, BANDWIDTH));
    GaugeCounts(Observed(b, BANDWIDTH));
    GaugeCounts(Observed(a + b, BANDWIDTH));
  }

  lemma GaugeCounts(values: seq<real>)
    ensures Gauge(values).samples == |values| && (values == [] ==> Gauge(values) == GaugeStats(0, 0.0, 0.0, 0.0))
  {
  }

  /** A reading by itself, and a count by itself. */
  function OneReading(value: Option<F64>): GaugeStats {
    match value
    case Some(Finite(v)) => GaugeStats(1, v, v, v)
    case _ => GaugeStats(0, 0.0, 0.0, 0.0)
  }

  function Counted(value: F64): real {
    match value
    case Finite(v) => if v >= 0.0 then v else 0.0
    case NonFinite => 0.0
  }

  function OneCount(value: Option<F64>): Option<real> {
    match value case Some(v) => Some(Counted(v)) case None => None
  }

  lemma OneOf(m: Metrics)
    ensures forall reading: Reading :: Gauge(Observed([m], reading)) == OneReading(reading(m))
    ensures forall reading: Reading :: Counter([m], reading) == OneCount(reading(m))
    ensures forall measure: Measure :: Sum([m], measure) == measure(m)
  {
    assert [m][..0] == [];
    assert forall measure: Measure :: Sum([], measure) == 0.0;
    assert forall measure: Measure :: Sum([m], measure) == Sum([], measure) + measure(m);
    forall reading: Reading ensures Gauge(Observed([m], reading)) == OneReading(reading(m)) {
      assert Observed([m], reading) == [] + FiniteReading(reading(m)) == FiniteReading(reading(m));
      if reading(m).Some? && reading(m).value.Finite? {
        GaugeOfOne(reading(m).value.value);
      }
    }
    forall reading: Reading ensures Counter([m], reading) == OneCount(reading(m)) {
      assert [m][0] == m;
      assert Sum([m], CounterMeasure(reading)) == CounterMeasure(reading)(m);
    }
  }

  /** Main result: the summary of one sample says what the sample says, field by field. */
  lemma SummaryOfOne(m: Metrics)
    ensures var w := Summary([m]);
            var duration, bytes := Counted(m.intervalDuration), Counted(m.transferredBytes);
            var band := OneReading(Some(m.bandwidth));
            && w.timestamp == m.timestamp && w.context == m.context
            && w.duration == duration && w.transferredBytes == bytes
            && w.omittedIntervals == (if m.omitted then 1.0 else 0.0)
            && w.bandwidth == (if band.samples > 0 && duration > 0.0 then band.(mean := 8.0 * bytes / duration)
                               else band)
            && w.tcpRtt == OneReading(m.tcpRtt) && w.tcpRttvar == OneReading(m.tcpRttvar)
            && w.tcpSndCwnd == OneReading(m.tcpSndCwnd) && w.tcpSndWnd == OneReading(m.tcpSndWnd)
            && w.tcpPmtu == OneReading(m.tcpPmtu) && w.udpJitter == OneReading(m.udpJitter)
            && w.tcpRetransmits == OneCount(m.tcpRetransmits) && w.tcpReorderEvents == OneCount(m.tcpReorderEvents)
            && w.udpPackets == OneCount(m.udpPackets) && w.udpLostPackets == OneCount(m.udpLostPackets)
            && w.udpOutOfOrderPackets == OneCount(m.udpOutOfOrderPackets)
  {
    hide Observed, Gauge, Counter, Sum;
    OneOf(m);
    assert [m][0] == m;
  }

  /**
   Main result: the summary of a window is made of the summaries of any two parts of it. With `SummaryOfOne` this says
   of every window what its summary is, without saying how it is computed.
   */
  lemma SummariesMerge(a: seq<Metrics>, b: seq<Metrics>)
    requires a != [] && b != []
    ensures var w, u, v := Summary(a + b), Summary(a), Summary(b);
            && w.timestamp == v.timestamp && w.context == u.context
            && w.duration == u.duration + v.duration && w.transferredBytes == u.transferredBytes + v.transferredBytes
            && w.omittedIntervals == u.omittedIntervals + v.omittedIntervals
            && Merges(w.tcpRtt, u.tcpRtt, v.tcpRtt) && Merges(w.tcpRttvar, u.tcpRttvar, v.tcpRttvar)
            && Merges(w.tcpSndCwnd, u.tcpSndCwnd, v.tcpSndCwnd) && Merges(w.tcpSndWnd, u.tcpSndWnd, v.tcpSndWnd)
            && Merges(w.tcpPmtu, u.tcpPmtu, v.tcpPmtu) && Merges(w.udpJitter, u.udpJitter, v.udpJitter)
            && w.tcpRetransmits == AddedTotals(u.tcpRetransmits, v.tcpRetransmits)
            && w.tcpReorderEvents == AddedTotals(u.tcpReorderEvents, v.tcpReorderEvents)
            && w.udpPackets == AddedTotals(u.udpPackets, v.udpPackets)
            && w.udpLostPackets == AddedTotals(u.udpLostPackets, v.udpLostPackets)
            && w.udpOutOfOrderPackets == AddedTotals(u.udpOutOfOrderPackets, v.udpOutOfOrderPackets)
            && MergesExtremes(w.bandwidth, u.bandwidth, v.bandwidth)
            && (w.duration > 0.0 && w.bandwidth.samples > 0
                ==> w.bandwidth.mean * w.duration == 8.0 * w.transferredBytes)
            && (w.duration == 0.0 ==> Merges(w.bandwidth, u.bandwidth, v.bandwidth))
  {
    hide Observed, Gauge, Counter, Sum, Merges, MergesExtremes, Bandwidth, AddedTotals;
    SumOfConcat(a, b, DURATION);
    SumOfConcat(a, b, BYTES);
    SumOfConcat(a, b, OMITTED);
    BandwidthOfConcat(a, b);
    GaugesMerge(a, b);
    CountersMerge(a, b);
  }

  lemma GaugesMerge(a: seq<Metrics>, b: seq<Metrics>)
    ensures forall reading: Reading ::
              Merges(Gauge(Observed(a + b, reading)), Gauge(Observed(a, reading)), Gauge(Observed(b, reading)))
  {
    hide Observed, Gauge, Merges;
    forall reading: Reading
      ensures Merges(Gauge(Observed(a + b, reading)), Gauge(Observed(a, reading)), Gauge(Observed(b, reading)))
    {
      ObservedOfConcat(a, b, reading);
      GaugeOfConcat(Observed(a, reading), Observed(b, reading));
    }
  }

  lemma CountersMerge(a: seq<Metrics>, b: seq<Metrics>)
    ensures forall reading: Reading :: Counter(a + b, reading) == AddedTotals(Counter(a, reading), Counter(b, reading))
  {
    hide Counter, AddedTotals;
    forall reading: Reading ensures Counter(a + b, reading) == AddedTotals(Counter(a, reading), Counter(b, reading)) {
      CounterOfConcat(a, b, reading);
    }
  }
}
