/**
 The native side of an interval, native/iperf3rs_shim.c: reorder deltas from cumulative counters, and the sample made of
 the streams of one direction. Sums in `double` are sums of numbers here.
 */
module Shim {
  import opened Samples
  import opened Wrappers

  // ---- Reorder deltas ----

  /** `iperf3rs_reorder_delta`: what a counter rose by; a counter that fell has started again from zero. */
  function ReorderDelta(current: int, previous: int): (delta: int)
    ensures delta >= 0 <==> current >= 0 && previous >= 0
    ensures delta < 0 ==> delta == -1
    ensures 0 <= previous <= current ==> delta + previous == current
    ensures 0 <= current < previous ==> delta == current
  {
    if current < 0 || previous < 0 then -1
    else if current < previous then current
    else current - previous
  }

  /** The deltas of a counter over a history of readings. */
  function DeltaSum(readings: seq<int>): int {
    if |readings| <= 1 then 0 else ReorderDelta(readings[1], readings[0]) + DeltaSum(readings[1..])
  }

  predicate NonNegative(readings: seq<int>) {
    forall i | 0 <= i < |readings| :: readings[i] >= 0
  }

  /** The epochs of a counter: the longest stretches over which it does not fall. */
  function Epochs(readings: seq<int>): (epochs: seq<seq<int>>)
    requires readings != []
    ensures epochs != [] && (forall i | 0 <= i < |epochs| :: epochs[i] != []) && epochs[0][0] == readings[0]
  {
    if |readings| == 1 then [readings]
    else
      var rest := Epochs(readings[1..]);
      if readings[1] < readings[0] then [[readings[0]]] + rest else [[readings[0]] + rest[0]] + rest[1..]
  }

  function LastsTotal(epochs: seq<seq<int>>): int
    requires forall i | 0 <= i < |epochs| :: epochs[i] != []
  {
    if epochs == [] then 0 else epochs[0][|epochs[0]| - 1] + LastsTotal(epochs[1..])
  }

  function Flatten(epochs: seq<seq<int>>): seq<int> {
    if epochs == [] then [] else epochs[0] + Flatten(epochs[1..])
  }

  predicate Rising(epoch: seq<int>) {
    forall i | 0 < i < |epoch| :: epoch[i - 1] <= epoch[i]
  }

  lemma {:induction false} EpochsFlatten(readings: seq<int>)
    requires readings != []
    ensures Flatten(Epochs(readings)) == readings
  {
    if |readings| == 1 {
      assert Flatten([readings]) == readings + Flatten([readings][1..]) == readings;
    } else {
      EpochsFlatten(readings[1..]);
      var rest := Epochs(readings[1..]);
      assert readings == [readings[0]] + readings[1..];
      assert ([[readings[0]]] + rest)[1..] == rest;
      assert ([[readings[0]] + rest[0]] + rest[1..])[1..] == rest[1..];
      assert [readings[0]] + (rest[0] + Flatten(rest[1..])) == [readings[0]] + rest[0] + Flatten(rest[1..]);
    }
  }

  /** None falls, and each starts below where the one before it ended. */
  predicate FallOnlyBetween(epochs: seq<seq<int>>)
    requires forall i | 0 <= i < |epochs| :: epochs[i] != []
  {
    epochs != [] ==>
      && Rising(epochs[0])
      && (|epochs| > 1 ==> epochs[1][0] < epochs[0][|epochs[0]| - 1])
      && FallOnlyBetween(epochs[1..])
  }

  /** The epochs make up the history, none falls, and each starts below where the one before it ended. */
  lemma {:induction false} EpochsAreEpochs(readings: seq<int>)
    requires readings != []
    ensures Flatten(Epochs(readings)) == readings && FallOnlyBetween(Epochs(readings))
  {
    hide Flatten;
    EpochsFlatten(readings);
    if |readings| > 1 {
      EpochsAreEpochs(readings[1..]);
      var rest := Epochs(readings[1..]);
      if readings[1] < readings[0] {
        assert Epochs(readings)[1..] == rest;
      } else {
        var first := [readings[0]] + rest[0];
        assert Epochs(readings)[1..] == rest[1..];
        assert first[|first| - 1] == rest[0][|rest[0]| - 1];
        assert forall i | 0 < i < |first| :: first[i] == rest[0][i - 1];
      }
    }
  }

  /** Main result for one counter: from zero on, its deltas add up to the last readings of its epochs. */
  lemma {:induction false} DeltasAreEpochs(readings: seq<int>)
    requires readings != [] && NonNegative(readings)
    ensures readings[0] + DeltaSum(readings) == LastsTotal(Epochs(readings))
  {
    if |readings| > 1 {
      var rest := Epochs(readings[1..]);
      DeltasAreEpochs(readings[1..]);
      if readings[1] < readings[0] {
        assert Epochs(readings)[1..] == rest;
      } else {
        var epochs := Epochs(readings);
        assert epochs[1..] == rest[1..];
        assert epochs[0][|epochs[0]| - 1] == rest[0][|rest[0]| - 1];
      }
    }
  }

  // ---- All the streams of a run ----

  function RowDelta(before: seq<int>, after: seq<int>): (total: int)
    requires |before| == |after|
    ensures total >= 0
  {
    if before == [] then 0
    else
      var n := |before| - 1;
      var delta := ReorderDelta(after[n], before[n]);
      RowDelta(before[..n], after[..n]) + if delta < 0 then 0 else delta
  }

  predicate Rectangular(rows: seq<seq<int>>, width: nat) {
    forall i | 0 <= i < |rows| :: |rows[i]| == width
  }

  /** What the intervals of a run report, one row of readings each. */
  function RunTotal(rows: seq<seq<int>>, width: nat): int
    requires Rectangular(rows, width)
  {
    if |rows| <= 1 then 0 else RowDelta(rows[0], rows[1]) + RunTotal(rows[1..], width)
  }

  function Column(rows: seq<seq<int>>, width: nat, j: nat): (column: seq<int>)
    requires Rectangular(rows, width) && j < width
    ensures |column| == |rows| && forall i | 0 <= i < |rows| :: column[i] == rows[i][j]
  {
    if rows == [] then [] else [rows[0][j]] + Column(rows[1..], width, j)
  }

  function ColumnsTotal(rows: seq<seq<int>>, width: nat, upto: nat): int
    requires Rectangular(rows, width) && upto <= width
  {
    if upto == 0 then 0 else ColumnsTotal(rows, width, upto - 1) + DeltaSum(Column(rows, width, upto - 1))
  }

  lemma ColumnStep(rows: seq<seq<int>>, width: nat, j: nat)
    requires Rectangular(rows, width) && j < width && |rows| > 1
    ensures DeltaSum(Column(rows, width, j))
            == ReorderDelta(rows[1][j], rows[0][j]) + DeltaSum(Column(rows[1..], width, j))
  {
    hide ReorderDelta;
    assert Column(rows, width, j)[1..] == Column(rows[1..], width, j);
  }

  lemma {:induction false} ColumnsStep(rows: seq<seq<int>>, width: nat, upto: nat)
    requires Rectangular(rows, width) && upto <= width && |rows| > 1
    requires forall i | 0 <= i < |rows| :: NonNegative(rows[i])
    ensures ColumnsTotal(rows, width, upto)
            == RowDelta(rows[0][..upto], rows[1][..upto]) + ColumnsTotal(rows[1..], width, upto)
  {
    hide DeltaSum, ReorderDelta, Column;
    if upto > 0 {
      ColumnsStep(rows, width, upto - 1);
      ColumnStep(rows, width, upto - 1);
      assert NonNegative(rows[0]) && NonNegative(rows[1]);
      assert rows[0][..upto][..upto - 1] == rows[0][..upto - 1] && rows[1][..upto][..upto - 1] == rows[1][..upto - 1];
    }
  }

  lemma {:induction false} NothingToAdd(rows: seq<seq<int>>, width: nat, upto: nat)
    requires Rectangular(rows, width) && upto <= width && |rows| <= 1
    ensures ColumnsTotal(rows, width, upto) == 0
  {
    if upto > 0 {
      NothingToAdd(rows, width, upto - 1);
    }
  }

  lemma {:induction false} RowsAndColumns(rows: seq<seq<int>>, width: nat)
    requires Rectangular(rows, width) && forall i | 0 <= i < |rows| :: NonNegative(rows[i])
    ensures RunTotal(rows, width) == ColumnsTotal(rows, width, width)
  {
    if |rows| <= 1 {
      NothingToAdd(rows, width, width);
    } else {
      RowsAndColumns(rows[1..], width);
      ColumnsStep(rows, width, width);
      assert rows[0][..width] == rows[0] && rows[1][..width] == rows[1];
    }
  }

  /** The last readings of every epoch of every stream. */
  function EpochsTotal(rows: seq<seq<int>>, width: nat, upto: nat): int
    requires Rectangular(rows, width) && upto <= width && rows != []
  {
    if upto == 0 then 0 else EpochsTotal(rows, width, upto - 1) + LastsTotal(Epochs(Column(rows, width, upto - 1)))
  }

  /**
   Main result for a run: with non-negative readings that start from zero, what the intervals report is never negative
   and adds up to the last readings of all the epochs of all the streams.
   */
  lemma ReportedEventsAreEpochs(rows: seq<seq<int>>, width: nat)
    requires rows != [] && Rectangular(rows, width) && forall i | 0 <= i < |rows| :: NonNegative(rows[i])
    requires forall j | 0 <= j < width :: rows[0][j] == 0
    ensures RunTotal(rows, width) == EpochsTotal(rows, width, width) >= 0
  {
    RowsAndColumns(rows, width);
    ColumnsAreEpochs(rows, width, width);
    RunIsNonNegative(rows, width);
  }

  lemma {:induction false} ColumnsAreEpochs(rows: seq<seq<int>>, width: nat, upto: nat)
    requires rows != [] && Rectangular(rows, width) && upto <= width
    requires forall i | 0 <= i < |rows| :: NonNegative(rows[i])
    requires forall j | 0 <= j < width :: rows[0][j] == 0
    ensures ColumnsTotal(rows, width, upto) == EpochsTotal(rows, width, upto)
  {
    hide DeltaSum, LastsTotal;
    if upto > 0 {
      ColumnsAreEpochs(rows, width, upto - 1);
      var column := Column(rows, width, upto - 1);
      forall i | 0 <= i < |column| ensures column[i] >= 0 {
        assert NonNegative(rows[i]);
      }
      DeltasAreEpochs(column);
    }
  }

  lemma {:induction false} RunIsNonNegative(rows: seq<seq<int>>, width: nat)
    requires Rectangular(rows, width)
    ensures RunTotal(rows, width) >= 0
  {
    if |rows| > 1 {
      RunIsNonNegative(rows[1..], width);
    }
  }

  // ---- One interval of a test ----

  /** What libiperf records of one stream for one interval. A negative reading was not available. */
  datatype Interval = Interval(
    bytes: nat,
    omitted: bool,
    retransmits: int,
    rtt: int,
    rttvar: int,
    sndCwnd: int,
    sndWnd: int,
    pmtu: int,
    reorder: int,
    packets: int,
    errors: int,
    outOfOrder: int,
    jitter: real,
    duration: real)

  datatype Mode = Receiving | Sending | Bidirectional

  class Stream {
    const sender: bool
    var last: Option<Interval>

    constructor (sender: bool)
      ensures this.sender == sender && last.None?
    {
      this.sender, last := sender, None;
    }
  }

  /** The cumulative counter as it stands, zero before the first interval. */
  function LastReorder(stream: Stream): int
    reads stream
  {
    match stream.last case Some(interval) => interval.reorder case None => 0
  }

  function Readings(streams: seq<Stream>): (readings: seq<int>)
    reads streams
    ensures |readings| == |streams| && forall i | 0 <= i < |streams| :: readings[i] == LastReorder(streams[i])
  {
    if streams == [] then [] else Readings(streams[..|streams| - 1]) + [LastReorder(streams[|streams| - 1])]
  }

  /** The values that belong to sending streams, in order. */
  function OfSenders(streams: seq<Stream>, values: seq<int>): (kept: seq<int>)
    requires |streams| == |values|
    ensures |kept| == SenderCount(streams)
  {
    if streams == [] then []
    else
      var n := |streams| - 1;
      OfSenders(streams[..n], values[..n]) + if streams[n].sender then [values[n]] else []
  }

  function SenderCount(streams: seq<Stream>): nat {
    if streams == [] then 0
    else SenderCount(streams[..|streams| - 1]) + if streams[|streams| - 1].sender then 1 else 0
  }

  lemma {:induction false} SendersPrefix(streams: seq<Stream>, values: seq<int>, k: nat)
    requires |streams| == |values| && k <= |streams|
    ensures OfSenders(streams[..k], values[..k]) <= OfSenders(streams, values)
  {
    if k == |streams| {
      assert streams[..k] == streams && values[..k] == values;
    } else {
      var n := |streams| - 1;
      SendersPrefix(streams[..n], values[..n], k);
      assert streams[..n][..k] == streams[..k] && values[..n][..k] == values[..k];
    }
  }

  /** The pairing of the two passes: a sending stream's value stands where the senders before it end. */
  lemma SenderStands(streams: seq<Stream>, values: seq<int>, k: nat)
    requires |streams| == |values| && k < |streams|
    ensures OfSenders(streams[..k + 1], values[..k + 1])
            == OfSenders(streams[..k], values[..k]) + if streams[k].sender then [values[k]] else []
    ensures SenderCount(streams[..k + 1]) == SenderCount(streams[..k]) + if streams[k].sender then 1 else 0
    ensures streams[k].sender ==>
              SenderCount(streams[..k]) < SenderCount(streams)
              && OfSenders(streams, values)[SenderCount(streams[..k])] == values[k]
  {
    assert streams[..k + 1][..k] == streams[..k] && values[..k + 1][..k] == values[..k];
    SendersPrefix(streams, values, k + 1);
  }

  lemma RowDeltaMore(before: seq<int>, after: seq<int>, b: int, a: int)
    requires |before| == |after|
    ensures RowDelta(before + [b], after + [a])
            == RowDelta(before, after) + (if ReorderDelta(a, b) < 0 then 0 else ReorderDelta(a, b))
  {
    assert (before + [b])[..|before|] == before && (after + [a])[..|after|] == after;
  }

  predicate AnyDelta(before: seq<int>, after: seq<int>)
    requires |before| == |after|
  {
    exists i | 0 <= i < |before| :: ReorderDelta(after[i], before[i]) >= 0
  }

  /** A delta is there exactly where neither reading is missing. */
  lemma DeltasAreAvailable(before: seq<int>, after: seq<int>)
    requires |before| == |after|
    ensures AnyDelta(before, after) <==> exists i | 0 <= i < |before| :: before[i] >= 0 && after[i] >= 0
  {
  }

  lemma AnyDeltaMore(before: seq<int>, after: seq<int>, b: int, a: int)
    requires |before| == |after|
    ensures AnyDelta(before + [b], after + [a]) <==> AnyDelta(before, after) || ReorderDelta(a, b) >= 0
  {
    if AnyDelta(before, after) {
      var i :| 0 <= i < |before| && ReorderDelta(after[i], before[i]) >= 0;
      assert (before + [b])[i] == before[i] && (after + [a])[i] == after[i];
    } else if ReorderDelta(a, b) >= 0 {
      assert (before + [b])[|before|] == b && (after + [a])[|before|] == a;
    }
  }

  /** `iperf3rs_add_nonnegative` */
  function AddNonNegative(sum: int, value: int): (int, nat) {
    if value < 0 then (sum, 0) else (sum + value, 1)
  }

  function MustBeSender(mode: Mode, role: Role): bool {
    if mode == Bidirectional then role == Client else mode == Sending
  }

  class Test {
    const streams: seq<Stream>
    const protocol: Protocol
    const senderHasRetransmits: bool
    const mode: Mode
    const role: Role
    const statsInterval: real
    const collected: (nat, nat) -> Interval
    var turn: nat
    var reorderEvents: int
    var reorderAvailable: bool

    constructor (streams: seq<Stream>, protocol: Protocol, senderHasRetransmits: bool, mode: Mode, role: Role,
                 statsInterval: real, collected: (nat, nat) -> Interval)
      ensures this.streams == streams && this.collected == collected
    {
      this.streams, this.protocol, this.senderHasRetransmits := streams, protocol, senderHasRetransmits;
      this.mode, this.role, this.statsInterval, this.collected := mode, role, statsInterval, collected;
      turn, reorderEvents, reorderAvailable := 0, 0, false;
    }

    ghost predicate Valid() {
      forall i, j | 0 <= i < j < |streams| :: streams[i] != streams[j]
    }

    predicate Tracked() {
      protocol == Tcp && senderHasRetransmits && MustBeSender(mode, role)
    }

    /** Upstream's `iperf_stats_callback`: a new last interval for every stream. */
    method CollectStats()
      requires Valid()
      modifies this`turn, streams
      ensures turn == old(turn) + 1
      ensures forall i | 0 <= i < |streams| :: streams[i].last == Some(collected(old(turn), i))
    {
      for i := 0 to |streams|
        invariant turn == old(turn)
        invariant forall k | 0 <= k < i :: streams[k].last == Some(collected(turn, k))
      {
        streams[i].last := Some(collected(turn, i));
      }
      turn := turn + 1;
    }

    /** The first passes of `iperf3rs_stats_callback`: count the sending streams, then capture their readings. */
    method CaptureSenders() returns (previous: array<int>)
      requires Valid()
      ensures fresh(previous) && previous[..] == OfSenders(streams, Readings(streams))
    {
      hide OfSenders, SenderCount, Readings;
      NoSenders();
      ghost var before := Readings(streams);
      var count := 0;
      for i := 0 to |streams|
        invariant count == SenderCount(streams[..i])
      {
        SenderStands(streams, before, i);
        if streams[i].sender {
          count := count + 1;
        }
      }
      assert streams[..|streams|] == streams && before[..|streams|] == before;
      previous := new int[count];
      var index := 0;
      for i := 0 to |streams|
        invariant index == SenderCount(streams[..i]) && index <= count
        invariant previous[..index] == OfSenders(streams[..i], before[..i])
        modifies previous
      {
        SenderStands(streams, before, i);
        if streams[i].sender {
          previous[index] := LastReorder(streams[i]);
          index := index + 1;
        }
      }
    }

    /** `iperf3rs_stats_callback`: the readings before and after the collection, paired stream by stream. */
    method StatsCallback()
      requires Valid()
      modifies this`turn, this`reorderEvents, this`reorderAvailable, streams
      ensures turn == old(turn) + 1
      ensures forall i | 0 <= i < |streams| :: streams[i].last == Some(collected(old(turn), i))
      ensures var before, after := OfSenders(streams, old(Readings(streams))), OfSenders(streams, Readings(streams));
              var sends := mode == Sending || (mode == Bidirectional && role == Client);
              if protocol == Tcp && senderHasRetransmits && sends
              then && reorderEvents == RowDelta(before, after)
                   && (reorderAvailable <==> exists i | 0 <= i < |before| :: before[i] >= 0 && after[i] >= 0)
              else reorderEvents == 0 && !reorderAvailable
    {
      hide RowDelta, ReorderDelta, AnyDelta, OfSenders, SenderCount, Readings, Paired;
      NoSenders();
      reorderEvents, reorderAvailable := 0, false;
      if protocol != Tcp || !senderHasRetransmits || !MustBeSender(mode, role) {
        CollectStats();
        return;
      }
      ghost var before := Readings(streams);
      var previous := CaptureSenders();
      if previous.Length == 0 {
        CollectStats();
        NoSendersNoDelta(OfSenders(streams, before), OfSenders(streams, Readings(streams)));
        DeltasAreAvailable(OfSenders(streams, before), OfSenders(streams, Readings(streams)));
        return;
      }
      CollectStats();
      ghost var after := Readings(streams);
      NonePaired(streams, before, after);
      var index := 0;
      for i := 0 to |streams|
        invariant index == SenderCount(streams[..i])
        invariant previous[..] == OfSenders(streams, before) && after == Readings(streams)
        invariant Paired(streams, before, after, i, reorderEvents, reorderAvailable)
        modifies this`reorderEvents, this`reorderAvailable
      {
        SenderStands(streams, before, i);
        PairedNext(streams, before, after, i, reorderEvents, reorderAvailable);
        if streams[i].sender {
          assert previous[..][index] == before[i];
          var delta := ReorderDelta(LastReorder(streams[i]), previous[index]);
          index := index + 1;
          var (sum, flag) := AddNonNegative(reorderEvents, delta);
          reorderEvents, reorderAvailable := sum, reorderAvailable || flag != 0;
        }
      }
      AllPaired(streams, before, after, reorderEvents, reorderAvailable);
      DeltasAreAvailable(OfSenders(streams, before), OfSenders(streams, after));
    }
  }

  /** The delta pass after `i` streams. */
  ghost predicate Paired(streams: seq<Stream>, before: seq<int>, after: seq<int>, i: nat, events: int, available: bool)
    requires |streams| == |before| == |after|
  {
    && i <= |streams|
    && events == RowDelta(OfSenders(streams[..i], before[..i]), OfSenders(streams[..i], after[..i]))
    && (available <==> AnyDelta(OfSenders(streams[..i], before[..i]), OfSenders(streams[..i], after[..i])))
  }

  lemma PairedNext(streams: seq<Stream>, before: seq<int>, after: seq<int>, i: nat, events: int, available: bool)
    requires |streams| == |before| == |after| && i < |streams| && Paired(streams, before, after, i, events, available)
    ensures streams[i].sender ==>
              var (sum, flag) := AddNonNegative(events, ReorderDelta(after[i], before[i]));
              Paired(streams, before, after, i + 1, sum, available || flag != 0)
    ensures !streams[i].sender ==> Paired(streams, before, after, i + 1, events, available)
  {
    hide OfSenders, RowDelta, AnyDelta;
    SenderStands(streams, before, i);
    SenderStands(streams, after, i);
    var b, a := OfSenders(streams[..i], before[..i]), OfSenders(streams[..i], after[..i]);
    assert b + [] == b && a + [] == a;
    RowDeltaMore(b, a, before[i], after[i]);
    AnyDeltaMore(b, a, before[i], after[i]);
  }

  lemma NonePaired(streams: seq<Stream>, before: seq<int>, after: seq<int>)
    requires |streams| == |before| == |after|
    ensures Paired(streams, before, after, 0, 0, false)
  {
  }

  lemma AllPaired(streams: seq<Stream>, before: seq<int>, after: seq<int>, events: int, available: bool)
    requires |streams| == |before| == |after| && Paired(streams, before, after, |streams|, events, available)
    ensures events == RowDelta(OfSenders(streams, before), OfSenders(streams, after))
    ensures available <==> AnyDelta(OfSenders(streams, before), OfSenders(streams, after))
  {
    assert streams[..|streams|] == streams && before[..|streams|] == before && after[..|streams|] == after;
  }

  lemma NoSenders()
    ensures OfSenders([], []) == [] && SenderCount([]) == 0 && RowDelta([], []) == 0 && !AnyDelta([], [])
  {
  }

  lemma NoSendersNoDelta(before: seq<int>, after: seq<int>)
    requires |before| == |after| == 0
    ensures RowDelta(before, after) == 0 && !AnyDelta(before, after)
  {
  }

  // ---- A run of intervals ----

  /** What upstream collected on one turn. */
  function Row(test: Test, turn: nat): (row: seq<int>)
    ensures |row| == SenderCount(test.streams)
  {
    OfSenders(test.streams, seq(|test.streams|, i requires 0 <= i < |test.streams| => test.collected(turn, i).reorder))
  }

  lemma {:induction false} RunTotalMore(rows: seq<seq<int>>, row: seq<int>, width: nat)
    requires rows != [] && Rectangular(rows, width) && |row| == width
    ensures Rectangular(rows + [row], width)
    ensures RunTotal(rows + [row], width) == RunTotal(rows, width) + RowDelta(rows[|rows| - 1], row)
  {
    hide RowDelta;
    if |rows| == 1 {
      assert RunTotal((rows + [row])[1..], width) == 0;
    } else {
      RunTotalMore(rows[1..], row, width);
      assert (rows + [row])[1..] == rows[1..] + [row];
    }
  }

  lemma {:induction false} ZerosKept(streams: seq<Stream>, values: seq<int>)
    requires |streams| == |values| && forall i | 0 <= i < |values| :: values[i] == 0
    ensures forall j | 0 <= j < SenderCount(streams) :: OfSenders(streams, values)[j] == 0
  {
    if streams != [] {
      ZerosKept(streams[..|streams| - 1], values[..|streams| - 1]);
    }
  }

  /**
   Main result for a test from its start: the rows of readings its intervals saw, and the total of what they reported,
   which is that of all epochs of all senders if no reading was negative.
   */
  method ReportIntervals(test: Test, intervals: nat) returns (total: int, ghost rows: seq<seq<int>>)
    requires test.Valid() && test.Tracked() && forall stream <- test.streams :: stream.last.None?
    modifies test`turn, test`reorderEvents, test`reorderAvailable, test.streams
    ensures |rows| == intervals + 1 && Rectangular(rows, SenderCount(test.streams))
    ensures forall j | 0 <= j < SenderCount(test.streams) :: rows[0][j] == 0
    ensures forall k | 0 < k < |rows| :: rows[k] == Row(test, old(test.turn) + k - 1)
    ensures total == RunTotal(rows, SenderCount(test.streams))
    ensures (forall row <- rows :: NonNegative(row)) ==>
              total == EpochsTotal(rows, SenderCount(test.streams), SenderCount(test.streams)) >= 0
  {
    hide RunTotal, RowDelta, OfSenders, SenderCount, AnyDelta, Readings, Row, EpochsTotal, NonNegative;
    ghost var width := SenderCount(test.streams);
    ghost var start := test.turn;
    rows := [OfSenders(test.streams, Readings(test.streams))];
    NothingRead(test.streams);
    total := 0;
    OneRow(rows, width);
    for k := 0 to intervals
      invariant |rows| == k + 1 && Rectangular(rows, width) && test.turn == start + k
      invariant forall j | 0 <= j < width :: rows[0][j] == 0
      invariant rows[k] == OfSenders(test.streams, Readings(test.streams))
      invariant forall i | 0 < i < |rows| :: rows[i] == Row(test, start + i - 1)
      invariant total == RunTotal(rows, width)
    {
      test.StatsCallback();
      total := total + test.reorderEvents;
      ReadingsAreRow(test, start + k);
      RunTotalMore(rows, Row(test, start + k), width);
      rows := rows + [Row(test, start + k)];
    }
    if forall row <- rows :: NonNegative(row) {
      assert forall i | 0 <= i < |rows| :: NonNegative(rows[i]);
      ReportedEventsAreEpochs(rows, width);
    }
  }

  lemma NothingRead(streams: seq<Stream>)
    requires forall stream <- streams :: stream.last.None?
    ensures forall j | 0 <= j < SenderCount(streams) :: OfSenders(streams, Readings(streams))[j] == 0
  {
    ZerosKept(streams, Readings(streams));
  }

  lemma ReadingsAreRow(test: Test, turn: nat)
    requires forall i | 0 <= i < |test.streams| :: test.streams[i].last == Some(test.collected(turn, i))
    ensures OfSenders(test.streams, Readings(test.streams)) == Row(test, turn)
  {
    assert Readings(test.streams)
        == seq(|test.streams|, i requires 0 <= i < |test.streams| => test.collected(turn, i).reorder);
  }

  lemma OneRow(rows: seq<seq<int>>, width: nat)
    requires |rows| == 1 && |rows[0]| == width
    ensures Rectangular(rows, width) && RunTotal(rows, width) == 0
  {
  }

  // ---- The sample of an interval ----

  /** The last intervals of the streams of one direction, in order. */
  function Matching(streams: seq<Stream>, sender: bool): seq<Interval>
    reads streams
  {
    if streams == [] then []
    else
      var stream := streams[|streams| - 1];
      Matching(streams[..|streams| - 1], sender)
      + if stream.sender == sender && stream.last.Some? then [stream.last.value] else []
  }

  type Count = Interval -> int

  function Added(intervals: seq<Interval>, count: Count): int {
    if intervals == [] then 0 else Added(intervals[..|intervals| - 1], count) + count(intervals[|intervals| - 1])
  }

  function AddedReal(intervals: seq<Interval>, amount: Interval -> real): real {
    if intervals == [] then 0.0
    else AddedReal(intervals[..|intervals| - 1], amount) + amount(intervals[|intervals| - 1])
  }

  /** The readings that count: those of at least `least`. */
  function Accepted(intervals: seq<Interval>, count: Count, least: int): (kept: seq<int>)
    ensures forall i | 0 <= i < |kept| :: kept[i] >= least
  {
    if intervals == [] then []
    else
      var reading := count(intervals[|intervals| - 1]);
      Accepted(intervals[..|intervals| - 1], count, least) + if reading >= least then [reading] else []
  }

  function SumOf(values: seq<int>): int {
    if values == [] then 0 else SumOf(values[..|values| - 1]) + values[|values| - 1]
  }

  /** A sum of accepted readings, and how many there were. */
  datatype Tally = Tally(sum: int, count: nat) {
    function Mean(scale: real): Option<F64>
      requires scale > 0.0
    {
      if count > 0 then Some(Finite(sum as real / count as real / scale)) else None
    }
  }

  function TallyOf(values: seq<int>): Tally {
    Tally(SumOf(values), |values|)
  }

  /** One reading more, counted if it is at least `least`. */
  method Observe(tally: Tally, reading: int, least: int, ghost values: seq<int>) returns (more: Tally)
    requires tally == TallyOf(values)
    ensures more == TallyOf(values + if reading >= least then [reading] else [])
  {
    if reading < least {
      assert values + [] == values;
      return tally;
    }
    assert (values + [reading])[..|values|] == values;
    more := Tally(tally.sum + reading, tally.count + 1);
  }

  const RTT: Count := (interval: Interval) => interval.rtt
  const RTTVAR: Count := (interval: Interval) => interval.rttvar
  const SND_CWND: Count := (interval: Interval) => interval.sndCwnd
  const SND_WND: Count := (interval: Interval) => interval.sndWnd
  const PMTU: Count := (interval: Interval) => interval.pmtu
  const BYTES_COUNT: Count := (interval: Interval) => interval.bytes
  const RETRANSMITS: Count := (interval: Interval) => interval.retransmits
  const PACKETS: Count := (interval: Interval) => interval.packets
  const ERRORS: Count := (interval: Interval) => interval.errors
  const OUT_OF_ORDER: Count := (interval: Interval) => interval.outOfOrder
  const JITTER: Interval -> real := (interval: Interval) => interval.jitter

  /** The five TCP gauges of the sending streams. */
  datatype TcpTallies = TcpTallies(rtt: Tally, rttvar: Tally, sndCwnd: Tally, sndWnd: Tally, pmtu: Tally,
                                   retransmits: int)

  /**
   Of a sending TCP test every stream counts, of any other none; a window or a congestion window of zero is no reading.
   */
  function TcpOf(intervals: seq<Interval>): TcpTallies {
    TcpTallies(TallyOf(Accepted(intervals, RTT, 0)), TallyOf(Accepted(intervals, RTTVAR, 0)),
               TallyOf(Accepted(intervals, SND_CWND, 1)), TallyOf(Accepted(intervals, SND_WND, 1)),
               TallyOf(Accepted(intervals, PMTU, 0)), Added(intervals, RETRANSMITS))
  }

  method ObserveTcp(tallies: TcpTallies, interval: Interval, ghost done: seq<Interval>) returns (more: TcpTallies)
    requires tallies == TcpOf(done)
    ensures more == TcpOf(done + [interval])
  {
    hide TallyOf, Accepted, Added;
    var rtt := Observe(tallies.rtt, interval.rtt, 0, Accepted(done, RTT, 0));
    var rttvar := Observe(tallies.rttvar, interval.rttvar, 0, Accepted(done, RTTVAR, 0));
    var sndCwnd := Observe(tallies.sndCwnd, interval.sndCwnd, 1, Accepted(done, SND_CWND, 1));
    var sndWnd := Observe(tallies.sndWnd, interval.sndWnd, 1, Accepted(done, SND_WND, 1));
    var pmtu := Observe(tallies.pmtu, interval.pmtu, 0, Accepted(done, PMTU, 0));
    AcceptedMore(done, interval, RTT, 0);
    AcceptedMore(done, interval, RTTVAR, 0);
    AcceptedMore(done, interval, SND_CWND, 1);
    AcceptedMore(done, interval, SND_WND, 1);
    AcceptedMore(done, interval, PMTU, 0);
    AddedMore(done, interval, RETRANSMITS);
    more := TcpTallies(rtt, rttvar, sndCwnd, sndWnd, pmtu, tallies.retransmits + interval.retransmits);
  }

  lemma AcceptedMore(done: seq<Interval>, interval: Interval, count: Count, least: int)
    ensures Accepted(done + [interval], count, least)
            == Accepted(done, count, least) + if count(interval) >= least then [count(interval)] else []
  {
    assert (done + [interval])[..|done|] == done;
  }

  lemma AddedMore(done: seq<Interval>, interval: Interval, count: Count)
    ensures Added(done + [interval], count) == Added(done, count) + count(interval)
  {
    assert (done + [interval])[..|done|] == done;
  }

  /** The three UDP counters and the jitter. */
  datatype UdpSums = UdpSums(packets: int, errors: int, outOfOrder: int, jitter: real)

  function UdpOf(intervals: seq<Interval>): UdpSums {
    UdpSums(Added(intervals, PACKETS), Added(intervals, ERRORS), Added(intervals, OUT_OF_ORDER),
            AddedReal(intervals, JITTER))
  }

  lemma UdpMore(done: seq<Interval>, interval: Interval)
    ensures UdpOf(done + [interval])
            == UdpSums(UdpOf(done).packets + interval.packets, UdpOf(done).errors + interval.errors,
                       UdpOf(done).outOfOrder + interval.outOfOrder, UdpOf(done).jitter + interval.jitter)
  {
    AddedMore(done, interval, PACKETS);
    AddedMore(done, interval, ERRORS);
    AddedMore(done, interval, OUT_OF_ORDER);
    assert (done + [interval])[..|done|] == done;
  }

  /** An interval that says something: long enough, or with bytes. */
  predicate Meaningful(interval: Interval, statsInterval: real) {
    interval.duration >= statsInterval * 0.10 || interval.bytes > 0
  }

  /** The sample of the matching streams; none when no stream matches or none says anything. */
  function SampleOf(test: Test, intervals: seq<Interval>, reorder: Option<F64>, timestamp: F64): Option<Metrics> {
    var sender := MustBeSender(test.mode, test.role);
    if !exists i | 0 <= i < |intervals| :: Meaningful(intervals[i], test.statsInterval) then None
    else
      var bytes := Added(intervals, BYTES_COUNT) as real;
      var duration := intervals[0].duration;
      var tcp := TcpOf(intervals);
      var udp := UdpOf(intervals);
      var isTcp := test.protocol == Tcp && test.senderHasRetransmits && sender;
      var isUdp := test.protocol == Udp;
      Some(Metrics(
        timestamp,
        Context(test.role, if sender then Direction.Sender else Direction.Receiver, |intervals|,
                if test.protocol in {Tcp, Udp, Sctp} then test.protocol else UnknownProtocol),
        Finite(bytes),
        Finite(if duration > 0.0 then bytes * 8.0 / duration else 0.0),
        When(isTcp, tcp.retransmits as real),
        if isTcp then tcp.rtt.Mean(1000000.0) else None,
        if isTcp then tcp.rttvar.Mean(1000000.0) else None,
        if isTcp then tcp.sndCwnd.Mean(1.0) else None,
        if isTcp then tcp.sndWnd.Mean(1.0) else None,
        if isTcp then tcp.pmtu.Mean(1.0) else None,
        reorder,
        When(isUdp, udp.packets as real),
        When(isUdp, udp.errors as real),
        When(isUdp && !sender, udp.jitter / |intervals| as real),
        When(isUdp, udp.outOfOrder as real),
        Finite(duration),
        exists i | 0 <= i < |intervals| :: intervals[i].omitted))
  }

  function When(available: bool, value: real): Option<F64> {
    if available then Some(Finite(value)) else None
  }

  /** `iperf3rs_emit_interval_metrics`, and the sample the callback makes of its arguments. */
  method EmitIntervalMetrics(test: Test, enabled: bool, timestamp: F64) returns (sample: Option<Metrics>)
    ensures sample == if enabled then SampleOf(test, Matching(test.streams, MustBeSender(test.mode, test.role)),
                                               When(test.reorderAvailable, test.reorderEvents as real), timestamp)
                      else None
  {
    hide Matching, TcpOf, UdpOf, Added, Meaningful, MustBeSender, TallyOf;
    if !enabled {
      return None;
    }
    var sender := MustBeSender(test.mode, test.role);
    var isTcp := test.protocol == Tcp && test.senderHasRetransmits && sender;
    var bytes, duration, matched, omitted, intervalOk := 0, 0.0, 0, false, false;
    var tcp := TcpTallies(Tally(0, 0), Tally(0, 0), Tally(0, 0), Tally(0, 0), Tally(0, 0), 0);
    var udp := UdpSums(0, 0, 0, 0.0);
    ghost var done: seq<Interval> := [];
    NothingMatched(test.streams, sender);
    for i := 0 to |test.streams|
      invariant done == Matching(test.streams[..i], sender)
      invariant matched == |done| && (matched > 0 ==> duration == done[0].duration)
      invariant bytes == Added(done, BYTES_COUNT)
      invariant omitted <==> exists k | 0 <= k < |done| :: done[k].omitted
      invariant intervalOk <==> exists k | 0 <= k < |done| :: Meaningful(done[k], test.statsInterval)
      invariant isTcp ==> tcp == TcpOf(done)
      invariant test.protocol == Udp ==> udp == UdpOf(done)
    {
      var stream := test.streams[i];
      MatchingMore(test.streams, sender, i);
      if stream.sender == sender && stream.last.Some? {
        var interval := stream.last.value;
        AnyMore(done, interval, test.statsInterval);
        if Meaningful(interval, test.statsInterval) {
          intervalOk := true;
        }
        AddedMore(done, interval, BYTES_COUNT);
        bytes := bytes + interval.bytes;
        if interval.omitted {
          omitted := true;
        }
        if isTcp {
          tcp := ObserveTcp(tcp, interval, done);
        } else if test.protocol == Udp {
          UdpMore(done, interval);
          udp := UdpSums(udp.packets + interval.packets, udp.errors + interval.errors,
                         udp.outOfOrder + interval.outOfOrder, udp.jitter + interval.jitter);
        }
        if matched == 0 {
          duration := interval.duration;
        }
        matched := matched + 1;
        done := done + [interval];
      }
    }
    assert test.streams[..|test.streams|] == test.streams;
    if !intervalOk || matched == 0 {
      return None;
    }
    sample := Some(Metrics(
      timestamp,
      Context(test.role, if sender then Direction.Sender else Direction.Receiver, matched,
              if test.protocol in {Tcp, Udp, Sctp} then test.protocol else UnknownProtocol),
      Finite(bytes as real),
      Finite(if duration > 0.0 then bytes as real * 8.0 / duration else 0.0),
      When(isTcp, tcp.retransmits as real),
      if isTcp then tcp.rtt.Mean(1000000.0) else None,
      if isTcp then tcp.rttvar.Mean(1000000.0) else None,
      if isTcp then tcp.sndCwnd.Mean(1.0) else None,
      if isTcp then tcp.sndWnd.Mean(1.0) else None,
      if isTcp then tcp.pmtu.Mean(1.0) else None,
      When(test.reorderAvailable, test.reorderEvents as real),
      When(test.protocol == Udp, udp.packets as real),
      When(test.protocol == Udp, udp.errors as real),
      When(test.protocol == Udp && !sender, udp.jitter / matched as real),
      When(test.protocol == Udp, udp.outOfOrder as real),
      Finite(duration),
      omitted));
  }

  lemma NothingMatched(streams: seq<Stream>, sender: bool)
    ensures streams[..0] == [] && Matching([], sender) == [] && Added([], BYTES_COUNT) == 0
    ensures UdpOf([]) == UdpSums(0, 0, 0, 0.0)
    ensures TcpOf([]) == TcpTallies(Tally(0, 0), Tally(0, 0), Tally(0, 0), Tally(0, 0), Tally(0, 0), 0)
  {
  }

  lemma MatchingMore(streams: seq<Stream>, sender: bool, i: nat)
    requires i < |streams|
    ensures streams[i].sender == sender && streams[i].last.Some? ==>
              Matching(streams[..i + 1], sender) == Matching(streams[..i], sender) + [streams[i].last.value]
    ensures !(streams[i].sender == sender && streams[i].last.Some?) ==>
              Matching(streams[..i + 1], sender) == Matching(streams[..i], sender)
  {
    assert streams[..i + 1][..i] == streams[..i];
    assert Matching(streams[..i], sender) + [] == Matching(streams[..i], sender);
  }

  lemma AnyMore(done: seq<Interval>, interval: Interval, statsInterval: real)
    ensures (exists k | 0 <= k < |done + [interval]| :: (done + [interval])[k].omitted)
            <==> (exists k | 0 <= k < |done| :: done[k].omitted) || interval.omitted
    ensures (exists k | 0 <= k < |done + [interval]| :: Meaningful((done + [interval])[k], statsInterval))
            <==> || (exists k | 0 <= k < |done| :: Meaningful(done[k], statsInterval))
                 || Meaningful(interval, statsInterval)
  {
    hide Meaningful;
    var more := done + [interval];
    assert more[|done|] == interval;
    assert forall k | 0 <= k < |done| :: more[k] == done[k];
  }

  // ---- What a sample says ----

  /** Main result: a sample of an interval with a length is consistent, as the window summaries need it to be. */
  lemma SampleIsConsistent(test: Test, intervals: seq<Interval>, reorder: Option<F64>, timestamp: F64)
    requires SampleOf(test, intervals, reorder, timestamp).Some? && intervals[0].duration > 0.0
    ensures Consistent(SampleOf(test, intervals, reorder, timestamp).value)
  {
    BytesAreNonNegative(intervals);
  }

  lemma {:induction false} BytesAreNonNegative(intervals: seq<Interval>)
    ensures Added(intervals, BYTES_COUNT) >= 0
  {
    if intervals != [] {
      BytesAreNonNegative(intervals[..|intervals| - 1]);
    }
  }

  lemma {:induction false} SumIsBetween(values: seq<int>, low: int, high: int)
    requires forall i | 0 <= i < |values| :: low <= values[i] <= high
    ensures low * |values| <= SumOf(values) <= high * |values|
  {
    if values != [] {
      SumIsBetween(values[..|values| - 1], low, high);
      assert low * |values| == low * (|values| - 1) + low && high * |values| == high * (|values| - 1) + high;
    }
  }

  lemma DivideBounds(sum: int, count: nat, low: int, high: int)
    requires count > 0 && low * count <= sum <= high * count
    ensures low as real <= sum as real / count as real <= high as real
  {
    assert low as real * count as real == (low * count) as real
        && high as real * count as real == (high * count) as real;
    var mean := sum as real / count as real;
    assert mean * count as real == sum as real;
    if mean < low as real {
      MulLess(mean, low as real, count as real);
    }
    if mean > high as real {
      MulLess(high as real, mean, count as real);
    }
  }

  lemma MulLess(a: real, b: real, c: real)
    requires a < b && c > 0.0
    ensures a * c < b * c
  {
    assert (b - a) * c > 0.0;
  }

  lemma DivideKeepsOrder(a: real, b: real, scale: real)
    requires a <= b && scale > 0.0
    ensures a / scale <= b / scale
  {
  }

  /**
   Main result: a gauge is there exactly when some stream has a reading, and then lies between those readings, in its
   unit.
   */
  lemma MeanIsBetween(intervals: seq<Interval>, count: Count, least: int, scale: real)
    requires scale > 0.0
    ensures var mean := TallyOf(Accepted(intervals, count, least)).Mean(scale);
            && (mean.Some? <==> exists interval <- intervals :: count(interval) >= least)
            && (mean.Some? ==>
                  mean.value.Finite?
                  && (exists low <- intervals :: count(low) >= least && count(low) as real / scale <= mean.value.value)
                  && (exists high <- intervals ::
                        count(high) >= least && mean.value.value <= count(high) as real / scale))
  {
    var values := Accepted(intervals, count, least);
    AcceptedAreReadings(intervals, count, least);
    if values != [] {
      var low, high := LeastOf(values), MostOf(values);
      SumIsBetween(values, low, high);
      DivideBounds(SumOf(values), |values|, low, high);
      DivideKeepsOrder(low as real, SumOf(values) as real / |values| as real, scale);
      DivideKeepsOrder(SumOf(values) as real / |values| as real, high as real, scale);
    } else {
      forall interval <- intervals ensures count(interval) < least {
        assert count(interval) >= least ==> count(interval) in values;
      }
    }
  }

  lemma {:induction false} AcceptedAreReadings(intervals: seq<Interval>, count: Count, least: int)
    ensures forall value <- Accepted(intervals, count, least) ::
              exists interval <- intervals :: count(interval) == value >= least
    ensures forall interval <- intervals ::
              count(interval) >= least ==> count(interval) in Accepted(intervals, count, least)
  {
    if intervals != [] {
      var rest, last := intervals[..|intervals| - 1], intervals[|intervals| - 1];
      AcceptedAreReadings(rest, count, least);
      assert intervals == rest + [last];
      assert last in intervals;
    }
  }

  function LeastOf(values: seq<int>): (least: int)
    requires values != []
    ensures least in values && forall i | 0 <= i < |values| :: least <= values[i]
  {
    var last := values[|values| - 1];
    if |values| == 1 then last
    else
      var rest := LeastOf(values[..|values| - 1]);
      if last < rest then last else rest
  }

  function MostOf(values: seq<int>): (most: int)
    requires values != []
    ensures most in values && forall i | 0 <= i < |values| :: values[i] <= most
  {
    var last := values[|values| - 1];
    if |values| == 1 then last
    else
      var rest := MostOf(values[..|values| - 1]);
      if last > rest then last else rest
  }

  // ---- What each field of a sample says ----

  lemma {:induction false} AddedSame(intervals: seq<Interval>, f: Count, g: Count)
    requires forall interval :: f(interval) == g(interval)
    ensures Added(intervals, f) == Added(intervals, g)
  {
    if intervals != [] {
      AddedSame(intervals[..|intervals| - 1], f, g);
    }
  }

  lemma {:induction false} AddedRealSame(intervals: seq<Interval>, f: Interval -> real, g: Interval -> real)
    requires forall interval :: f(interval) == g(interval)
    ensures AddedReal(intervals, f) == AddedReal(intervals, g)
  {
    if intervals != [] {
      AddedRealSame(intervals[..|intervals| - 1], f, g);
    }
  }

  lemma {:induction false} AcceptedSame(intervals: seq<Interval>, f: Count, g: Count, least: int)
    requires forall interval :: f(interval) == g(interval)
    ensures Accepted(intervals, f, least) == Accepted(intervals, g, least)
  {
    if intervals != [] {
      AcceptedSame(intervals[..|intervals| - 1], f, g, least);
    }
  }

  /** The sums are sums: of nothing, of one stream, and of two groups of streams. */
  lemma {:induction false} AddedIsASum(a: seq<Interval>, b: seq<Interval>, one: Interval, count: Count)
    ensures Added([], count) == 0 && Added([one], count) == count(one)
    ensures Added(a + b, count) == Added(a, count) + Added(b, count)
  {
    assert [one][..0] == [];
    if b == [] {
      assert a + b == a;
    } else {
      var init, last := b[..|b| - 1], b[|b| - 1];
      AddedIsASum(a, init, one, count);
      assert (a + b)[..|a + b| - 1] == a + init;
    }
  }

  /** The readings that count are those of the streams, each once, in order. */
  lemma {:induction false} AcceptedIsAFilter(a: seq<Interval>, b: seq<Interval>, one: Interval, count: Count,
                                             least: int)
    ensures Accepted([], count, least) == []
    ensures Accepted([one], count, least) == if count(one) >= least then [count(one)] else []
    ensures Accepted(a + b, count, least) == Accepted(a, count, least) + Accepted(b, count, least)
  {
    assert [one][..0] == [];
    if b == [] {
      assert a + b == a;
    } else {
      var init, last := b[..|b| - 1], b[|b| - 1];
      AcceptedIsAFilter(a, init, one, count, least);
      assert (a + b)[..|a + b| - 1] == a + init;
    }
  }

  /**
   A gauge: there exactly if it applies and some stream has a reading, and then the mean of all of them, in its unit.
   */
  ghost predicate IsMeanOf(value: Option<F64>, applies: bool, intervals: seq<Interval>, count: Count, least: int,
                           scale: real)
    requires scale > 0.0
  {
    var readings := Accepted(intervals, count, least);
    && (value.Some? <==> applies && exists interval <- intervals :: count(interval) >= least)
    && (value.Some? ==>
          && value.value.Finite?
          && value.value.value * scale * |readings| as real == SumOf(readings) as real
          && (exists low <- intervals :: count(low) >= least && count(low) as real / scale <= value.value.value)
          && (exists high <- intervals :: count(high) >= least && value.value.value <= count(high) as real / scale))
  }

  lemma GaugeSays(intervals: seq<Interval>, count: Count, field: Count, least: int, scale: real, applies: bool)
    requires scale > 0.0 && forall interval :: count(interval) == field(interval)
    ensures var mean := TallyOf(Accepted(intervals, count, least)).Mean(scale);
            IsMeanOf(if applies then mean else None, applies, intervals, field, least, scale)
  {
    hide SumOf;
    AcceptedSame(intervals, count, field, least);
    MeanIsBetween(intervals, field, least, scale);
    var readings := Accepted(intervals, field, least);
    if readings != [] {
      MeanTimesCount(SumOf(readings), |readings|, scale);
    }
  }

  lemma MeanTimesCount(sum: int, count: nat, scale: real)
    requires count > 0 && scale > 0.0
    ensures sum as real / count as real / scale * scale * count as real == sum as real
  {
    var mean := sum as real / count as real;
    assert mean / scale * scale == mean;
    assert mean * count as real == sum as real;
  }

  /** Which way a test reports. */
  predicate Sends(test: Test) {
    test.mode == Sending || (test.mode == Bidirectional && test.role == Client)
  }

  /** A sum that is there exactly if it applies. */
  ghost predicate IsSumOf(value: Option<F64>, applies: bool, intervals: seq<Interval>, count: Count) {
    value == if applies then Some(Finite(Added(intervals, count) as real)) else None
  }

  /** What a sample says of the test and of its first stream. */
  lemma SampleContext(test: Test, intervals: seq<Interval>, reorder: Option<F64>, timestamp: F64)
    requires SampleOf(test, intervals, reorder, timestamp).Some?
    ensures var m := SampleOf(test, intervals, reorder, timestamp).value;
            && m.timestamp == timestamp && m.tcpReorderEvents == reorder
            && m.context.role == test.role && m.context.streamCount == |intervals|
            && m.context.direction == (if Sends(test) then Direction.Sender else Direction.Receiver)
            && m.context.protocol == (if test.protocol.OtherProtocol? then UnknownProtocol else test.protocol)
            && m.intervalDuration == Finite(intervals[0].duration)
            && (m.omitted <==> exists interval <- intervals :: interval.omitted)
  {
    hide Added, AddedReal, TcpOf, UdpOf, Meaningful, Tally.Mean, When;
    if i :| 0 <= i < |intervals| && intervals[i].omitted {
      assert intervals[i] in intervals;
    }
    if interval :| interval in intervals && interval.omitted {
      var i :| 0 <= i < |intervals| && intervals[i] == interval;
      assert intervals[i].omitted;
    }
  }

  /** Main result on the counters of a sample: each is the total of its own field over the streams. */
  lemma SampleCounts(test: Test, intervals: seq<Interval>, reorder: Option<F64>, timestamp: F64)
    requires SampleOf(test, intervals, reorder, timestamp).Some?
    ensures var m := SampleOf(test, intervals, reorder, timestamp).value;
            var tcp := test.protocol == Tcp && test.senderHasRetransmits && Sends(test);
            var udp := test.protocol == Udp;
            && m.transferredBytes == Finite(Added(intervals, (interval: Interval) => interval.bytes) as real)
            && IsSumOf(m.tcpRetransmits, tcp, intervals, (interval: Interval) => interval.retransmits)
            && IsSumOf(m.udpPackets, udp, intervals, (interval: Interval) => interval.packets)
            && IsSumOf(m.udpLostPackets, udp, intervals, (interval: Interval) => interval.errors)
            && IsSumOf(m.udpOutOfOrderPackets, udp, intervals, (interval: Interval) => interval.outOfOrder)
  {
    hide Added, AddedReal, Accepted, Meaningful, Tally.Mean, TallyOf;
    AddedSame(intervals, BYTES_COUNT, (interval: Interval) => interval.bytes);
    AddedSame(intervals, RETRANSMITS, (interval: Interval) => interval.retransmits);
    AddedSame(intervals, PACKETS, (interval: Interval) => interval.packets);
    AddedSame(intervals, ERRORS, (interval: Interval) => interval.errors);
    AddedSame(intervals, OUT_OF_ORDER, (interval: Interval) => interval.outOfOrder);
  }

  /** The jitter is the mean over all streams of a receiving UDP test. */
  lemma SampleJitter(test: Test, intervals: seq<Interval>, reorder: Option<F64>, timestamp: F64)
    requires SampleOf(test, intervals, reorder, timestamp).Some?
    ensures var jitter := SampleOf(test, intervals, reorder, timestamp).value.udpJitter;
            && (jitter.Some? <==> test.protocol == Udp && !Sends(test))
            && (jitter.Some? ==>
                  jitter.value.Finite?
                  && jitter.value.value * |intervals| as real
                     == AddedReal(intervals, (interval: Interval) => interval.jitter))
  {
    hide Added, AddedReal, TcpOf, Meaningful, Tally.Mean;
    AddedRealSame(intervals, JITTER, (interval: Interval) => interval.jitter);
    DividedBack(AddedReal(intervals, JITTER), |intervals|);
  }

  lemma DividedBack(sum: real, count: nat)
    ensures count > 0 ==> sum / count as real * count as real == sum
  {
  }

  /** Main result on the TCP gauges: each is the mean of the readings of its own field, in its unit. */
  lemma SampleGauges(test: Test, intervals: seq<Interval>, reorder: Option<F64>, timestamp: F64)
    requires SampleOf(test, intervals, reorder, timestamp).Some?
    ensures var m := SampleOf(test, intervals, reorder, timestamp).value;
            var tcp := test.protocol == Tcp && test.senderHasRetransmits && Sends(test);
            && IsMeanOf(m.tcpRtt, tcp, intervals, (interval: Interval) => interval.rtt, 0, 1000000.0)
            && IsMeanOf(m.tcpRttvar, tcp, intervals, (interval: Interval) => interval.rttvar, 0, 1000000.0)
            && IsMeanOf(m.tcpSndCwnd, tcp, intervals, (interval: Interval) => interval.sndCwnd, 1, 1.0)
            && IsMeanOf(m.tcpSndWnd, tcp, intervals, (interval: Interval) => interval.sndWnd, 1, 1.0)
            && IsMeanOf(m.tcpPmtu, tcp, intervals, (interval: Interval) => interval.pmtu, 0, 1.0)
  {
    hide Added, AddedReal, Accepted, IsMeanOf, TallyOf, Tally.Mean;
    var tcp := test.protocol == Tcp && test.senderHasRetransmits && Sends(test);
    GaugeSays(intervals, RTT, (interval: Interval) => interval.rtt, 0, 1000000.0, tcp);
    GaugeSays(intervals, RTTVAR, (interval: Interval) => interval.rttvar, 0, 1000000.0, tcp);
    GaugeSays(intervals, SND_CWND, (interval: Interval) => interval.sndCwnd, 1, 1.0, tcp);
    GaugeSays(intervals, SND_WND, (interval: Interval) => interval.sndWnd, 1, 1.0, tcp);
    GaugeSays(intervals, PMTU, (interval: Interval) => interval.pmtu, 0, 1.0, tcp);
  }

  /** There is a sample exactly if some stream's interval lasted a tenth of the reporting interval, or carried bytes. */
  lemma SampleExactly(test: Test, intervals: seq<Interval>, reorder: Option<F64>, timestamp: F64)
    ensures SampleOf(test, intervals, reorder, timestamp).Some?
            <==> exists interval <- intervals :: interval.bytes > 0 || interval.duration * 10.0 >= test.statsInterval
  {
    hide Added, AddedReal, TcpOf, UdpOf;
    if interval :| interval in intervals && (interval.bytes > 0 || interval.duration * 10.0 >= test.statsInterval) {
      var i :| 0 <= i < |intervals| && intervals[i] == interval;
      assert Meaningful(intervals[i], test.statsInterval);
    }
    if i :| 0 <= i < |intervals| && Meaningful(intervals[i], test.statsInterval) {
      assert intervals[i] in intervals;
    }
  }

  /** The streams a sample is made of: those of its direction that have an interval, each once, in order. */
  lemma {:induction false} MatchingExactly(streams: seq<Stream>, sender: bool)
    ensures forall interval :: interval in Matching(streams, sender)
              <==> exists stream <- streams :: stream.sender == sender && stream.last == Some(interval)
    ensures |Matching(streams, sender)| <= |streams|
  {
    if streams != [] {
      var init, last := streams[..|streams| - 1], streams[|streams| - 1];
      MatchingExactly(init, sender);
      assert streams == init + [last];
      assert last in streams && forall stream <- init :: stream in streams;
    }
  }
}
