/**
 The Prometheus text exposition of src/prometheus.rs, and a reader of the text format that knows nothing of how it
 was written. A value's text is left to a formatter; what is assumed of it is that it has no space or line break.
 */
module Exposition {
  import opened Samples
  import opened TextBuffers
  import opened Texts
  import opened Wrappers

  type Formatter = F64 -> string

  predicate Plain(text: string) {
    text != "" && ' ' !in text && '\n' !in text
  }

  ghost predicate PlainFormatter(format: Formatter) {
    forall value :: Plain(format(value))
  }

  // ---- Labels ----

  function EscapedChar(c: char): string {
    if c == '\\' then "\\\\"
    else if c == '"' then "\\\""
    else if c == '\n' then "\\n"
    else [c]
  }

  function Escaped(value: string): string {
    if value == "" then "" else EscapedChar(value[0]) + Escaped(value[1..])
  }

  lemma {:induction false} EscapedOneMore(value: string, c: char)
    ensures Escaped(value + [c]) == Escaped(value) + EscapedChar(c)
  {
    hide EscapedChar;
    if value == "" {
      assert EscapedChar(c) + "" == EscapedChar(c) && "" + EscapedChar(c) == EscapedChar(c);
      assert value + [c] == [c] && [c][1..] == "";
    } else {
      EscapedOneMore(value[1..], c);
      assert (value + [c])[1..] == value[1..] + [c];
      Associative(EscapedChar(value[0]), Escaped(value[1..]), EscapedChar(c));
    }
  }

  method PushEscapedLabelValue(out: TextBuffer, value: string)
    modifies out
    ensures out.text == old(out.text) + Escaped(value)
  {
    hide Escaped;
    ghost var start := out.text;
    NothingEscaped();
    for i := 0 to |value|
      invariant out.text == start + Escaped(value[..i])
    {
      EscapedOneMore(value[..i], value[i]);
      assert value[..i] + [value[i]] == value[..i + 1];
      Associative(start, Escaped(value[..i]), EscapedChar(value[i]));
      match value[i]
      case '\\' => out.PushStr("\\\\");
      case '"' => out.PushStr("\\\"");
      case '\n' => out.PushStr("\\n");
      case _ => out.Push(value[i]);
    }
    assert value[..|value|] == value;
  }

  lemma NothingEscaped()
    ensures Escaped("") == ""
  {
  }

  function LabelText(pair: Label): string {
    pair.0 + "=\"" + (Escaped(pair.1) + "\"")
  }

  function Joined(labels: seq<Label>): string {
    if labels == [] then ""
    else if |labels| == 1 then LabelText(labels[0])
    else LabelText(labels[0]) + ("," + Joined(labels[1..]))
  }

  function LabelSetText(labels: seq<Label>): string {
    if labels == [] then "" else "{" + Joined(labels) + "}"
  }

  lemma {:induction false} JoinedOneMore(labels: seq<Label>, pair: Label)
    ensures Joined(labels + [pair]) == Joined(labels) + (if labels == [] then "" else ",") + LabelText(pair)
  {
    hide LabelText;
    if labels == [] {
      assert [] + [pair] == [pair] && "" + "" + LabelText(pair) == LabelText(pair);
    } else if |labels| == 1 {
      assert (labels + [pair])[1..] == [pair];
      Associative(LabelText(labels[0]), ",", LabelText(pair));
    } else {
      JoinedOneMore(labels[1..], pair);
      assert (labels + [pair])[1..] == labels[1..] + [pair];
      Regroup(LabelText(labels[0]), ",", Joined(labels[1..]), LabelText(pair));
    }
  }

  lemma Regroup(head: string, comma: string, rest: string, last: string)
    ensures head + (comma + (rest + comma + last)) == head + (comma + rest) + comma + last
  {
  }

  method LabelSet(labels: seq<Label>) returns (labelSet: string)
    ensures labelSet == LabelSetText(labels)
  {
    hide Escaped, Joined;
    if labels == [] {
      return "";
    }
    var out := new TextBuffer("{");
    JoinedOneMore([], labels[0]);
    NothingJoined();
    for i := 0 to |labels|
      invariant out.text == "{" + Joined(labels[..i])
    {
      var (name, value) := labels[i];
      if i > 0 {
        out.Push(',');
      }
      out.PushStr(name);
      out.PushStr("=\"");
      PushEscapedLabelValue(out, value);
      out.Push('"');
      JoinedOneMore(labels[..i], labels[i]);
      assert labels[..i] + [labels[i]] == labels[..i + 1];
      LabelAppended(Joined(labels[..i]), if i > 0 then "," else "", labels[i]);
    }
    assert labels[..|labels|] == labels;
    out.Push('}');
    labelSet := out.text;
  }

  lemma NothingJoined()
    ensures Joined([]) == ""
  {
  }

  lemma LabelAppended(done: string, comma: string, pair: Label)
    ensures "{" + done + comma + pair.0 + "=\"" + Escaped(pair.1) + "\"" == "{" + (done + comma + LabelText(pair))
    ensures "{" + done + pair.0 + "=\"" + Escaped(pair.1) + "\"" == "{" + (done + "" + LabelText(pair))
  {
    hide Escaped;
  }

  // ---- Families ----

  /** A gauge family that may be absent. */
  type Entry = (string, Option<F64>)

  function GaugeText(name: string, value: string, labelSet: string): string {
    "# TYPE " + name + " gauge" + "\n" + (name + labelSet + (" " + value) + "\n")
  }

  function EntryText(entry: Entry, labelSet: string, format: Formatter): string {
    match entry.1 case Some(value) => GaugeText(entry.0, format(value), labelSet) case None => ""
  }

  function TableText(table: seq<Entry>, labelSet: string, format: Formatter): string {
    if table == [] then "" else EntryText(table[0], labelSet, format) + TableText(table[1..], labelSet, format)
  }

  lemma {:induction false} TableOfConcat(a: seq<Entry>, b: seq<Entry>, labelSet: string, format: Formatter)
    ensures TableText(a + b, labelSet, format) == TableText(a, labelSet, format) + TableText(b, labelSet, format)
  {
    hide EntryText;
    if a == [] {
      assert a + b == b && "" + TableText(b, labelSet, format) == TableText(b, labelSet, format);
    } else {
      TableOfConcat(a[1..], b, labelSet, format);
      assert (a + b)[1..] == a[1..] + b;
      Associative(EntryText(a[0], labelSet, format), TableText(a[1..], labelSet, format),
                  TableText(b, labelSet, format));
    }
  }

  function MetricName(prefix: string, suffix: string): string {
    prefix + "_" + suffix
  }

  /** `gauge` */
  method Gauge(out: TextBuffer, name: string, value: F64, labelSet: string, format: Formatter)
    modifies out
    ensures out.text == old(out.text) + EntryText((name, Some(value)), labelSet, format)
  {
    ghost var start := out.text;
    out.PushStr("# TYPE ");
    out.PushStr(name);
    out.PushStr(" gauge\n");
    out.PushStr(name);
    out.PushStr(labelSet);
    out.Push(' ');
    out.PushStr(format(value));
    out.Push('\n');
    GaugeAppended(start, name, labelSet, format(value));
  }

  lemma GaugeAppended(start: string, name: string, labelSet: string, value: string)
    ensures start + "# TYPE " + name + " gauge\n" + name + labelSet + " " + value + "\n"
            == start + GaugeText(name, value, labelSet)
  {
    assert " gauge\n" == " gauge" + "\n";
  }

  /** `gauge_option` */
  method GaugeOption(out: TextBuffer, name: string, value: Option<F64>, labelSet: string, format: Formatter)
    modifies out
    ensures out.text == old(out.text) + EntryText((name, value), labelSet, format)
  {
    hide GaugeText;
    match value
    case Some(v) => Gauge(out, name, v, labelSet, format);
    case None => assert out.text + "" == out.text;
  }

  /** `gauge_stats` */
  method PushGaugeStats(out: TextBuffer, prefix: string, stem: string, unit: string, stats: GaugeStats,
                        labelSet: string, format: Formatter)
    modifies out
    ensures out.text == old(out.text) + TableText(StatsTable(prefix, stem, unit, stats), labelSet, format)
  {
    hide EntryText, MetricName, TableText;
    ghost var start := out.text;
    if stats.samples == 0 {
      AbsentStats(prefix, stem, unit, stats, labelSet, format);
      assert out.text + "" == out.text;
      return;
    }
    Gauge(out, MetricName(prefix, stem + "_mean_" + unit), Finite(stats.mean), labelSet, format);
    Gauge(out, MetricName(prefix, stem + "_min_" + unit), Finite(stats.min), labelSet, format);
    Gauge(out, MetricName(prefix, stem + "_max_" + unit), Finite(stats.max), labelSet, format);
    ThreeEntries(start, StatsTable(prefix, stem, unit, stats), labelSet, format);
  }

  function StatsTable(prefix: string, stem: string, unit: string, stats: GaugeStats): (table: seq<Entry>)
    ensures |table| == 3
  {
    var reading := (value: real) => if stats.samples == 0 then None else Some(Finite(value));
    [(MetricName(prefix, stem + "_mean_" + unit), reading(stats.mean)),
     (MetricName(prefix, stem + "_min_" + unit), reading(stats.min)),
     (MetricName(prefix, stem + "_max_" + unit), reading(stats.max))]
  }

  lemma ThreeEntries(start: string, table: seq<Entry>, labelSet: string, format: Formatter)
    requires |table| == 3
    ensures start + EntryText(table[0], labelSet, format) + EntryText(table[1], labelSet, format)
            + EntryText(table[2], labelSet, format) == start + TableText(table, labelSet, format)
  {
    hide EntryText;
    var a, b := EntryText(table[0], labelSet, format), EntryText(table[1], labelSet, format);
    var c := EntryText(table[2], labelSet, format);
    assert table[1..][1..] == table[2..] && table[2..][1..] == [];
    assert TableText(table[2..], labelSet, format) == c + "" == c;
    assert TableText(table[1..], labelSet, format) == b + c;
    assert start + a + b + c == start + (a + (b + c));
  }

  lemma AbsentStats(prefix: string, stem: string, unit: string, stats: GaugeStats, labelSet: string, format: Formatter)
    requires stats.samples == 0
    ensures TableText(StatsTable(prefix, stem, unit, stats), labelSet, format) == ""
  {
    hide MetricName;
    ThreeEntries("", StatsTable(prefix, stem, unit, stats), labelSet, format);
    var text := TableText(StatsTable(prefix, stem, unit, stats), labelSet, format);
    assert "" + text == text;
  }

  // ---- The two snapshots ----

  /** The families of an interval snapshot, in order, and where each value comes from. */
  function IntervalTable(m: Metrics, prefix: string): (table: seq<Entry>)
    ensures |table| == 15
  {
    IntervalTcp(m, prefix) + IntervalUdp(m, prefix)
  }

  function IntervalTcp(m: Metrics, prefix: string): (table: seq<Entry>)
    ensures |table| == 10
  {
    [
      (MetricName(prefix, "transferred_bytes"), Some(m.transferredBytes)),
      (MetricName(prefix, "bandwidth_bits_per_second"), Some(m.bandwidth)),
      (MetricName(prefix, "stream_count"), Some(Finite(m.context.streamCount as real))),
      (MetricName(prefix, "tcp_retransmits"), m.tcpRetransmits),
      (MetricName(prefix, "tcp_rtt_seconds"), m.tcpRtt),
      (MetricName(prefix, "tcp_rttvar_seconds"), m.tcpRttvar),
      (MetricName(prefix, "tcp_snd_cwnd_bytes"), m.tcpSndCwnd),
      (MetricName(prefix, "tcp_snd_wnd_bytes"), m.tcpSndWnd),
      (MetricName(prefix, "tcp_pmtu_bytes"), m.tcpPmtu),
      (MetricName(prefix, "tcp_reorder_events"), m.tcpReorderEvents)
    ]
  }

  function IntervalUdp(m: Metrics, prefix: string): (table: seq<Entry>)
    ensures |table| == 5
  {
    [
      (MetricName(prefix, "udp_packets"), m.udpPackets),
      (MetricName(prefix, "udp_lost_packets"), m.udpLostPackets),
      (MetricName(prefix, "udp_jitter_seconds"), m.udpJitter),
      (MetricName(prefix, "udp_out_of_order_packets"), m.udpOutOfOrderPackets),
      (MetricName(prefix, "omitted_intervals"), Some(Finite(if m.omitted then 1.0 else 0.0)))
    ]
  }

  /** The text on having added the first `k` entries to `start`. */
  function TextBefore(start: string, table: seq<Entry>, k: nat, labelSet: string, format: Formatter): string
    requires k <= |table|
  {
    start + TableText(table[..k], labelSet, format)
  }

  lemma AllEmitted(start: string, table: seq<Entry>, labelSet: string, format: Formatter)
    ensures TextBefore(start, table, 0, labelSet, format) == start
    ensures TextBefore(start, table, |table|, labelSet, format) == start + TableText(table, labelSet, format)
  {
    assert table[..|table|] == table;
  }

  /** The text of one entry more of the table. */
  lemma Emitted(start: string, table: seq<Entry>, k: nat, labelSet: string, format: Formatter)
    requires k < |table|
    ensures TextBefore(start, table, k + 1, labelSet, format)
            == TextBefore(start, table, k, labelSet, format) + EntryText(table[k], labelSet, format)
  {
    TableOfConcat(table[..k], [table[k]], labelSet, format);
    OneEntry(table[k], labelSet, format);
    assert table[..k + 1] == table[..k] + [table[k]];
    Associative(start, TableText(table[..k], labelSet, format), EntryText(table[k], labelSet, format));
  }

  lemma OneEntry(entry: Entry, labelSet: string, format: Formatter)
    ensures TableText([entry], labelSet, format) == EntryText(entry, labelSet, format)
  {
    assert [entry][1..] == [] && EntryText(entry, labelSet, format) + "" == EntryText(entry, labelSet, format);
  }

  method PushIntervalTcp(out: TextBuffer, m: Metrics, prefix: string, labelSet: string, format: Formatter)
    modifies out
    ensures out.text == old(out.text) + TableText(IntervalTcp(m, prefix), labelSet, format)
  {
    hide TableText, EntryText, MetricName, TextBefore;
    ghost var table, start := IntervalTcp(m, prefix), out.text;
    AllEmitted(start, table, labelSet, format);
    Gauge(out, MetricName(prefix, "transferred_bytes"), m.transferredBytes, labelSet, format);
    Emitted(start, table, 0, labelSet, format);
    Gauge(out, MetricName(prefix, "bandwidth_bits_per_second"), m.bandwidth, labelSet, format);
    Emitted(start, table, 1, labelSet, format);
    Gauge(out, MetricName(prefix, "stream_count"), Finite(m.context.streamCount as real), labelSet, format);
    Emitted(start, table, 2, labelSet, format);
    GaugeOption(out, MetricName(prefix, "tcp_retransmits"), m.tcpRetransmits, labelSet, format);
    Emitted(start, table, 3, labelSet, format);
    GaugeOption(out, MetricName(prefix, "tcp_rtt_seconds"), m.tcpRtt, labelSet, format);
    Emitted(start, table, 4, labelSet, format);
    GaugeOption(out, MetricName(prefix, "tcp_rttvar_seconds"), m.tcpRttvar, labelSet, format);
    Emitted(start, table, 5, labelSet, format);
    GaugeOption(out, MetricName(prefix, "tcp_snd_cwnd_bytes"), m.tcpSndCwnd, labelSet, format);
    Emitted(start, table, 6, labelSet, format);
    GaugeOption(out, MetricName(prefix, "tcp_snd_wnd_bytes"), m.tcpSndWnd, labelSet, format);
    Emitted(start, table, 7, labelSet, format);
    GaugeOption(out, MetricName(prefix, "tcp_pmtu_bytes"), m.tcpPmtu, labelSet, format);
    Emitted(start, table, 8, labelSet, format);
    GaugeOption(out, MetricName(prefix, "tcp_reorder_events"), m.tcpReorderEvents, labelSet, format);
    Emitted(start, table, 9, labelSet, format);
  }

  method PushIntervalUdp(out: TextBuffer, m: Metrics, prefix: string, labelSet: string, format: Formatter)
    modifies out
    ensures out.text == old(out.text) + TableText(IntervalUdp(m, prefix), labelSet, format)
  {
    hide TableText, EntryText, MetricName, TextBefore;
    ghost var table, start := IntervalUdp(m, prefix), out.text;
    AllEmitted(start, table, labelSet, format);
    GaugeOption(out, MetricName(prefix, "udp_packets"), m.udpPackets, labelSet, format);
    Emitted(start, table, 0, labelSet, format);
    GaugeOption(out, MetricName(prefix, "udp_lost_packets"), m.udpLostPackets, labelSet, format);
    Emitted(start, table, 1, labelSet, format);
    GaugeOption(out, MetricName(prefix, "udp_jitter_seconds"), m.udpJitter, labelSet, format);
    Emitted(start, table, 2, labelSet, format);
    GaugeOption(out, MetricName(prefix, "udp_out_of_order_packets"), m.udpOutOfOrderPackets, labelSet, format);
    Emitted(start, table, 3, labelSet, format);
    Gauge(out, MetricName(prefix, "omitted_intervals"), Finite(if m.omitted then 1.0 else 0.0), labelSet, format);
    Emitted(start, table, 4, labelSet, format);
  }

  /** `render_interval_prometheus_with_labels` */
  method RenderInterval(m: Metrics, prefix: string, labels: seq<Label>, format: Formatter) returns (text: string)
    ensures text == TableText(IntervalTable(m, prefix), LabelSetText(labels), format)
  {
    hide TableText, LabelSetText, IntervalTcp, IntervalUdp;
    var out := new TextBuffer("");
    var labelSet := LabelSet(labels);
    PushIntervalTcp(out, m, prefix, labelSet, format);
    PushIntervalUdp(out, m, prefix, labelSet, format);
    TableOfConcat(IntervalTcp(m, prefix), IntervalUdp(m, prefix), labelSet, format);
    text := out.text;
  }

  /** A counter total of a window. */
  function TotalOf(value: Option<real>): Option<F64> {
    match value case Some(v) => Some(Finite(v)) case None => None
  }

  /** The families of a window snapshot: three totals, seven triples of gauge statistics, five counters, one total. */
  function WindowTable(w: WindowMetrics, prefix: string): (table: seq<Entry>)
    ensures |table| == 30
  {
    WindowTotals(w, prefix)
    + StatsTable(prefix, "window_bandwidth", "bits_per_second", w.bandwidth)
    + StatsTable(prefix, "window_tcp_rtt", "seconds", w.tcpRtt)
    + StatsTable(prefix, "window_tcp_rttvar", "seconds", w.tcpRttvar)
    + StatsTable(prefix, "window_tcp_snd_cwnd", "bytes", w.tcpSndCwnd)
    + StatsTable(prefix, "window_tcp_snd_wnd", "bytes", w.tcpSndWnd)
    + StatsTable(prefix, "window_tcp_pmtu", "bytes", w.tcpPmtu)
    + StatsTable(prefix, "window_udp_jitter", "seconds", w.udpJitter)
    + WindowCounters(w, prefix)
  }

  function WindowTotals(w: WindowMetrics, prefix: string): (table: seq<Entry>)
    ensures |table| == 3
  {
    [
      (MetricName(prefix, "window_duration_seconds"), Some(Finite(w.duration))),
      (MetricName(prefix, "window_transferred_bytes"), Some(Finite(w.transferredBytes))),
      (MetricName(prefix, "window_stream_count"), Some(Finite(w.context.streamCount as real)))
    ]
  }

  function WindowCounters(w: WindowMetrics, prefix: string): (table: seq<Entry>)
    ensures |table| == 6
  {
    [
      (MetricName(prefix, "window_tcp_retransmits"), TotalOf(w.tcpRetransmits)),
      (MetricName(prefix, "window_tcp_reorder_events"), TotalOf(w.tcpReorderEvents)),
      (MetricName(prefix, "window_udp_packets"), TotalOf(w.udpPackets)),
      (MetricName(prefix, "window_udp_lost_packets"), TotalOf(w.udpLostPackets)),
      (MetricName(prefix, "window_udp_out_of_order_packets"), TotalOf(w.udpOutOfOrderPackets)),
      (MetricName(prefix, "window_omitted_intervals"), Some(Finite(w.omittedIntervals)))
    ]
  }

  method PushWindowTotals(out: TextBuffer, w: WindowMetrics, prefix: string, labelSet: string, format: Formatter)
    modifies out
    ensures out.text == old(out.text) + TableText(WindowTotals(w, prefix), labelSet, format)
  {
    hide TableText, EntryText, MetricName, TextBefore;
    ghost var table, start := WindowTotals(w, prefix), out.text;
    AllEmitted(start, table, labelSet, format);
    Gauge(out, MetricName(prefix, "window_duration_seconds"), Finite(w.duration), labelSet, format);
    Emitted(start, table, 0, labelSet, format);
    Gauge(out, MetricName(prefix, "window_transferred_bytes"), Finite(w.transferredBytes), labelSet, format);
    Emitted(start, table, 1, labelSet, format);
    Gauge(out, MetricName(prefix, "window_stream_count"), Finite(w.context.streamCount as real), labelSet, format);
    Emitted(start, table, 2, labelSet, format);
  }

  method PushWindowCounters(out: TextBuffer, w: WindowMetrics, prefix: string, labelSet: string, format: Formatter)
    modifies out
    ensures out.text == old(out.text) + TableText(WindowCounters(w, prefix), labelSet, format)
  {
    hide TableText, EntryText, MetricName, TextBefore;
    ghost var table, start := WindowCounters(w, prefix), out.text;
    AllEmitted(start, table, labelSet, format);
    GaugeOption(out, MetricName(prefix, "window_tcp_retransmits"), TotalOf(w.tcpRetransmits), labelSet, format);
    Emitted(start, table, 0, labelSet, format);
    GaugeOption(out, MetricName(prefix, "window_tcp_reorder_events"), TotalOf(w.tcpReorderEvents), labelSet, format);
    Emitted(start, table, 1, labelSet, format);
    GaugeOption(out, MetricName(prefix, "window_udp_packets"), TotalOf(w.udpPackets), labelSet, format);
    Emitted(start, table, 2, labelSet, format);
    GaugeOption(out, MetricName(prefix, "window_udp_lost_packets"), TotalOf(w.udpLostPackets), labelSet, format);
    Emitted(start, table, 3, labelSet, format);
    GaugeOption(out, MetricName(prefix, "window_udp_out_of_order_packets"), TotalOf(w.udpOutOfOrderPackets), labelSet,
                format);
    Emitted(start, table, 4, labelSet, format);
    Gauge(out, MetricName(prefix, "window_omitted_intervals"), Finite(w.omittedIntervals), labelSet, format);
    Emitted(start, table, 5, labelSet, format);
  }

  /** `render_window_prometheus_with_labels` */
  method RenderWindow(w: WindowMetrics, prefix: string, labels: seq<Label>, format: Formatter) returns (text: string)
    ensures text == TableText(WindowTable(w, prefix), LabelSetText(labels), format)
  {
    hide TableText, LabelSetText, StatsTable, WindowTotals, WindowCounters;
    var out := new TextBuffer("");
    var labelSet := LabelSet(labels);
    PushWindowTotals(out, w, prefix, labelSet, format);
    ghost var done := WindowTotals(w, prefix);
    PushGaugeStats(out, prefix, "window_bandwidth", "bits_per_second", w.bandwidth, labelSet, format);
    done := GrowBy(done, StatsTable(prefix, "window_bandwidth", "bits_per_second", w.bandwidth), labelSet, format);
    PushGaugeStats(out, prefix, "window_tcp_rtt", "seconds", w.tcpRtt, labelSet, format);
    done := GrowBy(done, StatsTable(prefix, "window_tcp_rtt", "seconds", w.tcpRtt), labelSet, format);
    PushGaugeStats(out, prefix, "window_tcp_rttvar", "seconds", w.tcpRttvar, labelSet, format);
    done := GrowBy(done, StatsTable(prefix, "window_tcp_rttvar", "seconds", w.tcpRttvar), labelSet, format);
    PushGaugeStats(out, prefix, "window_tcp_snd_cwnd", "bytes", w.tcpSndCwnd, labelSet, format);
    done := GrowBy(done, StatsTable(prefix, "window_tcp_snd_cwnd", "bytes", w.tcpSndCwnd), labelSet, format);
    PushGaugeStats(out, prefix, "window_tcp_snd_wnd", "bytes", w.tcpSndWnd, labelSet, format);
    done := GrowBy(done, StatsTable(prefix, "window_tcp_snd_wnd", "bytes", w.tcpSndWnd), labelSet, format);
    PushGaugeStats(out, prefix, "window_tcp_pmtu", "bytes", w.tcpPmtu, labelSet, format);
    done := GrowBy(done, StatsTable(prefix, "window_tcp_pmtu", "bytes", w.tcpPmtu), labelSet, format);
    PushGaugeStats(out, prefix, "window_udp_jitter", "seconds", w.udpJitter, labelSet, format);
    done := GrowBy(done, StatsTable(prefix, "window_udp_jitter", "seconds", w.udpJitter), labelSet, format);
    PushWindowCounters(out, w, prefix, labelSet, format);
    done := GrowBy(done, WindowCounters(w, prefix), labelSet, format);
    text := out.text;
  }

  lemma GrowBy(done: seq<Entry>, next: seq<Entry>, labelSet: string, format: Formatter) returns (more: seq<Entry>)
    ensures more == done + next
    ensures TableText(more, labelSet, format) == TableText(done, labelSet, format) + TableText(next, labelSet, format)
  {
    more := done + next;
    TableOfConcat(done, next, labelSet, format);
  }

  // ---- A reader of the text format ----

  datatype Sample = Sample(name: string, labels: seq<Label>, value: string)

  function TakeLine(text: string): (line: Option<(string, string)>)
    ensures line.Some? ==> |line.value.1| < |text|
  {
    var i := IndexOf(text, '\n');
    if i < |text| then Some((text[..i], text[i + 1..])) else None
  }

  /** A quoted label value, up to its closing quote. */
  function ReadQuoted(s: string): (read: Option<(string, string)>)
    ensures read.Some? ==> |read.value.1| < |s|
  {
    if s == "" then None
    else if s[0] == '"' then Some(("", s[1..]))
    else if s[0] == '\\' then
      if |s| < 2 then None
      else match (Unescape(s[1]), ReadQuoted(s[2..]))
        case (Some(c), Some((value, rest))) => Some(([c] + value, rest))
        case _ => None
    else match ReadQuoted(s[1..])
      case Some((value, rest)) => Some(([s[0]] + value, rest))
      case None => None
  }

  function Unescape(c: char): Option<char> {
    if c == '\\' then Some('\\') else if c == '"' then Some('"') else if c == 'n' then Some('\n') else None
  }

  /** The labels after an opening brace, and what follows the closing one. */
  function ReadLabels(s: string): Option<(seq<Label>, string)>
    decreases |s|
  {
    var i := IndexOf(s, '=');
    if i + 1 >= |s| || s[i + 1] != '"' || !ValidName(s[..i]) then None
    else match ReadQuoted(s[i + 2..])
      case None => None
      case Some((value, rest)) =>
        if rest == "" then None
        else if rest[0] == '}' then Some(([(s[..i], value)], rest[1..]))
        else if rest[0] == ',' then
          (match ReadLabels(rest[1..])
           case Some((labels, after)) => Some(([(s[..i], value)] + labels, after))
           case None => None)
        else None
  }

  function ReadValue(name: string, labels: seq<Label>, rest: string): Option<Sample> {
    if rest != "" && rest[0] == ' ' && Plain(rest[1..]) && ValidName(name) then Some(Sample(name, labels, rest[1..]))
    else None
  }

  /** A metric name ends at the first character that cannot be in one. */
  function NameEnd(line: string): (n: nat)
    ensures n <= |line|
  {
    if line == "" || !NameChar(line[0]) then 0 else 1 + NameEnd(line[1..])
  }

  function ReadSample(line: string): Option<Sample> {
    var n := NameEnd(line);
    if n < |line| && line[n] == '{' then
      match ReadLabels(line[n + 1..])
      case Some((labels, rest)) => ReadValue(line[..n], labels, rest)
      case None => None
    else ReadValue(line[..n], [], line[n..])
  }

  /** The family and the kind that a TYPE comment declares. */
  function ReadType(line: string): Option<(string, string)> {
    if "# TYPE " <= line then
      var rest := line[7..];
      var i := IndexOf(rest, ' ');
      if i < |rest| then Some((rest[..i], rest[i + 1..])) else None
    else None
  }

  /** A text of gauges: each family is declared, and its one sample follows. */
  function ReadText(text: string): Option<seq<Sample>> {
    if text == "" then Some([])
    else match TakeLine(text)
      case None => None
      case Some((declaration, rest)) =>
        match TakeLine(rest)
        case None => None
        case Some((line, more)) =>
          match (ReadType(declaration), ReadSample(line), ReadText(more))
          case (Some((name, kind)), Some(sample), Some(samples)) =>
            if name == sample.name && kind == "gauge" then Some([sample] + samples) else None
          case _ => None
  }

  // ---- What is written reads back ----

  lemma {:induction false} QuotedReads(value: string, rest: string)
    ensures ReadQuoted(Escaped(value) + ("\"" + rest)) == Some((value, rest))
  {
    if value == "" {
      assert "" + ("\"" + rest) == "\"" + rest;
      assert ("\"" + rest)[1..] == rest;
    } else {
      var first, after := EscapedChar(value[0]), Escaped(value[1..]) + ("\"" + rest);
      QuotedReads(value[1..], rest);
      var s := first + after;
      Associative(first, Escaped(value[1..]), "\"" + rest);
      assert s[|first|..] == after;
      assert [value[0]] + value[1..] == value;
    }
  }

  lemma {:induction false} LabelsRead(labels: seq<Label>, rest: string)
    requires labels != [] && ValidNames(labels)
    ensures ReadLabels(Joined(labels) + ("}" + rest)) == Some((labels, rest))
    decreases |labels|
  {
    hide ReadLabels;
    var (name, value) := labels[0];
    if |labels| == 1 {
      LabelReads(name, value, "}" + rest);
      assert ("}" + rest)[1..] == rest;
      assert labels == [labels[0]];
    } else {
      var after := Joined(labels[1..]) + ("}" + rest);
      LabelsRead(labels[1..], rest);
      LabelReads(name, value, "," + after);
      assert ("," + after)[1..] == after;
      assert labels == [labels[0]] + labels[1..];
      SeparatorMoves(LabelText(labels[0]), Joined(labels[1..]), "}" + rest);
    }
  }

  lemma SeparatorMoves(head: string, tail: string, rest: string)
    ensures head + ("," + tail) + rest == head + ("," + (tail + rest))
  {
  }

  /** One label, followed by a separator or the closing brace. */
  lemma LabelReads(name: string, value: string, rest: string)
    requires ValidName(name) && rest != "" && (rest[0] == ',' || rest[0] == '}')
    ensures ReadLabels(LabelText((name, value)) + rest)
            == if rest[0] == '}' then Some(([(name, value)], rest[1..]))
               else match ReadLabels(rest[1..])
                 case Some((labels, after)) => Some(([(name, value)] + labels, after))
                 case None => None
  {
    hide ReadQuoted, Escaped;
    var quoted := Escaped(value) + ("\"" + rest);
    var s := name + "=\"" + quoted;
    LabelRegroups(name, Escaped(value), rest);
    assert s[..|name|] == name && s[|name|] == '=' && s[|name| + 1] == '"' && s[|name| + 2..] == quoted;
    NameHasNo(name, '=');
    IndexOfIs(s, '=', |name|);
    QuotedReads(value, rest);
  }

  lemma LabelRegroups(name: string, value: string, rest: string)
    ensures name + "=\"" + (value + "\"") + rest == name + "=\"" + (value + ("\"" + rest))
  {
  }

  lemma NameHasNo(name: string, c: char)
    requires ValidName(name) && !NameChar(c)
    ensures c !in name
  {
  }

  lemma {:induction false} NameEndIs(name: string, rest: string)
    requires (forall c <- name :: NameChar(c)) && (rest == "" || !NameChar(rest[0]))
    ensures NameEnd(name + rest) == |name|
  {
    if name == "" {
      assert name + rest == rest;
    } else {
      NameEndIs(name[1..], rest);
      assert (name + rest)[1..] == name[1..] + rest;
    }
  }

  lemma SampleReads(name: string, labels: seq<Label>, value: string)
    requires ValidName(name) && ValidNames(labels) && Plain(value)
    ensures ReadSample(name + LabelSetText(labels) + (" " + value)) == Some(Sample(name, labels, value))
  {
    hide Joined, ReadLabels, Plain, ValidName;
    var tail := LabelSetText(labels) + (" " + value);
    Associative(name, LabelSetText(labels), " " + value);
    assert (" " + value)[1..] == value;
    AllNameChars(name);
    NameEndIs(name, tail);
    assert (name + tail)[..|name|] == name && (name + tail)[|name|..] == tail;
    if labels == [] {
      assert tail == " " + value;
    } else {
      var inner := Joined(labels) + ("}" + (" " + value));
      LabelsRead(labels, " " + value);
      BraceMoves(Joined(labels), " " + value);
      assert (name + tail)[|name| + 1..] == inner;
    }
  }

  lemma AllNameChars(name: string)
    requires ValidName(name)
    ensures forall c <- name :: NameChar(c)
  {
  }

  lemma BraceMoves(joined: string, rest: string)
    ensures "{" + joined + "}" + rest == "{" + (joined + ("}" + rest))
  {
  }

  lemma TypeReads(name: string)
    requires ValidName(name)
    ensures ReadType("# TYPE " + name + " gauge") == Some((name, "gauge"))
  {
    var line, rest := "# TYPE " + name + " gauge", name + " gauge";
    assert line == "# TYPE " + rest;
    assert line[7..] == rest;
    NameHasNo(name, ' ');
    assert rest[..|name|] == name && rest[|name| + 1..] == "gauge";
    IndexOfIs(rest, ' ', |name|);
  }

  lemma LineReads(line: string, rest: string)
    requires '\n' !in line
    ensures TakeLine(line + "\n" + rest) == Some((line, rest))
  {
    var text := line + "\n" + rest;
    assert text[..|line|] == line && text[|line| + 1..] == rest;
    IndexOfIs(text, '\n', |line|);
  }

  lemma {:induction false} EscapedIsOneLine(value: string)
    ensures '\n' !in Escaped(value)
  {
    if value != "" {
      EscapedIsOneLine(value[1..]);
    }
  }

  lemma {:induction false} JoinedIsOneLine(labels: seq<Label>)
    requires ValidNames(labels)
    ensures '\n' !in Joined(labels)
  {
    hide Escaped, NameChar;
    if labels != [] {
      var (name, value) := labels[0];
      JoinedIsOneLine(labels[1..]);
      EscapedIsOneLine(value);
      NameHasNo(name, '\n') by { NewlineIsNoNameChar(); }
    }
  }

  lemma NewlineIsNoNameChar()
    ensures !NameChar('\n')
  {
  }

  lemma GaugeReads(name: string, labels: seq<Label>, value: string, rest: string)
    requires ValidName(name) && ValidNames(labels) && Plain(value) && ReadText(rest).Some?
    ensures ReadText(GaugeText(name, value, LabelSetText(labels)) + rest)
            == Some([Sample(name, labels, value)] + ReadText(rest).value)
  {
    hide ReadSample, ReadType, Joined, ValidName, TakeLine, NameChar;
    var declaration, line := "# TYPE " + name + " gauge", name + LabelSetText(labels) + (" " + value);
    JoinedIsOneLine(labels);
    NameHasNo(name, '\n') by { NewlineIsNoNameChar(); }
    GaugeLines(declaration, line, rest);
    LineReads(declaration, line + "\n" + rest);
    LineReads(line, rest);
    TypeReads(name);
    SampleReads(name, labels, value);
  }

  lemma GaugeLines(declaration: string, line: string, rest: string)
    ensures declaration + "\n" + (line + "\n") + rest == declaration + "\n" + (line + "\n" + rest)
  {
  }

  predicate ValidTable(table: seq<Entry>) {
    forall i | 0 <= i < |table| :: ValidName(table[i].0)
  }

  /** The samples a table stands for: an entry without a value has none. */
  ghost function SamplesOf(table: seq<Entry>, labels: seq<Label>, format: Formatter): seq<Sample> {
    if table == [] then []
    else
      (match table[0].1 case Some(value) => [Sample(table[0].0, labels, format(value))] case None => [])
      + SamplesOf(table[1..], labels, format)
  }

  /** Main result for any table: the text reads back as exactly the present entries, in order, with all the labels. */
  lemma {:induction false} TableReadsBack(table: seq<Entry>, labels: seq<Label>, format: Formatter)
    requires ValidTable(table) && ValidNames(labels) && PlainFormatter(format)
    ensures ReadText(TableText(table, LabelSetText(labels), format)) == Some(SamplesOf(table, labels, format))
  {
    hide ReadText, GaugeText, LabelSetText, ValidName, Plain;
    if table == [] {
      assert ReadText("") == Some([]) by { NothingReads(); }
    } else {
      TableReadsBack(table[1..], labels, format);
      var rest := TableText(table[1..], LabelSetText(labels), format);
      match table[0].1
      case Some(value) =>
        GaugeReads(table[0].0, labels, format(value), rest);
      case None =>
        assert "" + rest == rest;
        assert [] + SamplesOf(table[1..], labels, format) == SamplesOf(table[1..], labels, format);
    }
  }

  lemma NothingReads()
    ensures ReadText("") == Some([])
  {
  }

  // ---- Each family once ----

  predicate Unique(table: seq<Entry>) {
    forall i, j | 0 <= i < j < |table| :: table[i].0 != table[j].0
  }

  predicate UniqueNames(samples: seq<Sample>) {
    forall i, j | 0 <= i < j < |samples| :: samples[i].name != samples[j].name
  }

  /** A family is in the samples exactly when its entry has a value, with that value and all the labels. */
  lemma {:induction false} PresentExactly(table: seq<Entry>, labels: seq<Label>, format: Formatter)
    requires Unique(table)
    ensures UniqueNames(SamplesOf(table, labels, format))
    ensures forall entry <- table :: entry.1.Some? ==>
              Sample(entry.0, labels, format(entry.1.value)) in SamplesOf(table, labels, format)
    ensures forall sample <- SamplesOf(table, labels, format) ::
              exists entry <- table :: entry.1.Some? && sample == Sample(entry.0, labels, format(entry.1.value))
  {
    if table != [] {
      PresentExactly(table[1..], labels, format);
      var rest := SamplesOf(table[1..], labels, format);
      assert forall i | 0 < i < |table| :: table[i] == table[1..][i - 1];
      assert table == [table[0]] + table[1..];
      if table[0].1.Some? {
        var first := Sample(table[0].0, labels, format(table[0].1.value));
        assert SamplesOf(table, labels, format) == [first] + rest;
        forall i | 0 <= i < |rest| ensures rest[i].name != first.name {
          assert rest[i] in rest;
        }
      } else {
        assert SamplesOf(table, labels, format) == [] + rest == rest;
      }
    }
  }

  function At(s: string, i: nat): char {
    if i < |s| then s[i] else ' '
  }

  /** The place of an interval family in its table, told from a few characters of its name. */
  function IntervalIndex(s: string): int {
    match At(s, 0)
    case 'b' => 1
    case 's' => 2
    case 'o' => 14
    case 'u' => if At(s, 4) == 'p' then 10 else if At(s, 4) == 'l' then 11 else if At(s, 4) == 'j' then 12 else 13
    case _ =>
      if At(s, 1) == 'r' then 0
      else if At(s, 4) == 'p' then 8
      else if At(s, 4) == 's' then (if At(s, 8) == 'c' then 6 else 7)
      else if At(s, 5) == 't' then (if At(s, 7) == '_' then 4 else 5)
      else if At(s, 6) == 't' then 3 else 9
  }

  function StatIndex(c: char): int {
    if c == 'e' then 0 else if c == 'i' then 1 else 2
  }

  /** The place of a window family in its table. */
  function WindowIndex(s: string): int {
    match At(s, 7)
    case 'd' => 0
    case 'b' => 3 + StatIndex(At(s, 18))
    case 's' => 2
    case 'o' => 29
    case 't' =>
      if At(s, 8) == 'r' then 1
      else if At(s, 11) == 'p' then 18 + StatIndex(At(s, 17))
      else if At(s, 11) == 's' then (if At(s, 15) == 'c' then 12 + StatIndex(At(s, 21)) else 15 + StatIndex(At(s, 20)))
      else if At(s, 12) == 't' then (if At(s, 14) == '_' then 6 + StatIndex(At(s, 16)) else 9 + StatIndex(At(s, 19)))
      else if At(s, 13) == 't' then 24 else 25
    case _ =>
      if At(s, 11) == 'j' then 21 + StatIndex(At(s, 19))
      else if At(s, 11) == 'p' then 26
      else if At(s, 11) == 'l' then 27
      else 28
  }

  /** The entries have valid names under the prefix, whose indices count up from `base`. */
  predicate Indexed(index: string -> int, table: seq<Entry>, prefix: string, base: int) {
    forall k | 0 <= k < |table| :: IndexedEntry(index, table[k], prefix, base + k)
  }

  predicate IndexedEntry(index: string -> int, entry: Entry, prefix: string, at: int) {
    ValidName(entry.0) && |prefix| < |entry.0| && index(entry.0[|prefix| + 1..]) == at
  }

  lemma IndexedConcat(index: string -> int, a: seq<Entry>, b: seq<Entry>, prefix: string, base: int)
    requires Indexed(index, a, prefix, base) && Indexed(index, b, prefix, base + |a|)
    ensures Indexed(index, a + b, prefix, base)
  {
    hide IndexedEntry;
    forall k | 0 <= k < |a + b| ensures IndexedEntry(index, (a + b)[k], prefix, base + k) {
      if k >= |a| {
        assert (a + b)[k] == b[k - |a|];
        assert IndexedEntry(index, b[k - |a|], prefix, base + |a| + (k - |a|));
      }
    }
  }

  lemma IndexedIsUnique(index: string -> int, table: seq<Entry>, prefix: string, base: int)
    requires Indexed(index, table, prefix, base)
    ensures ValidTable(table) && Unique(table)
  {
    hide ValidName;
    forall i, j | 0 <= i < j < |table| ensures table[i].0 != table[j].0 {
      assert IndexedEntry(index, table[i], prefix, base + i) && IndexedEntry(index, table[j], prefix, base + j);
    }
    assert forall i | 0 <= i < |table| :: IndexedEntry(index, table[i], prefix, base + i);
  }

  predicate NameText(s: string) {
    forall i | 0 <= i < |s| :: NameChar(s[i])
  }

  lemma Named(index: string -> int, prefix: string, suffix: string, value: Option<F64>)
    requires ValidName(prefix) && NameText(suffix)
    ensures IndexedEntry(index, (MetricName(prefix, suffix), value), prefix, index(suffix))
  {
    assert MetricName(prefix, suffix)[|prefix| + 1..] == suffix;
  }

  lemma TransferNames()
    ensures NameText("transferred_bytes") && IntervalIndex("transferred_bytes") == 0
    ensures NameText("bandwidth_bits_per_second") && IntervalIndex("bandwidth_bits_per_second") == 1
    ensures NameText("stream_count") && IntervalIndex("stream_count") == 2
  {
  }

  lemma TcpNames()
    ensures NameText("tcp_retransmits") && IntervalIndex("tcp_retransmits") == 3
    ensures NameText("tcp_rtt_seconds") && IntervalIndex("tcp_rtt_seconds") == 4
    ensures NameText("tcp_rttvar_seconds") && IntervalIndex("tcp_rttvar_seconds") == 5
    ensures NameText("tcp_snd_cwnd_bytes") && IntervalIndex("tcp_snd_cwnd_bytes") == 6
  {
  }

  lemma TcpPathNames()
    ensures NameText("tcp_snd_wnd_bytes") && IntervalIndex("tcp_snd_wnd_bytes") == 7
    ensures NameText("tcp_pmtu_bytes") && IntervalIndex("tcp_pmtu_bytes") == 8
    ensures NameText("tcp_reorder_events") && IntervalIndex("tcp_reorder_events") == 9
  {
  }

  lemma UdpNames()
    ensures NameText("udp_packets") && IntervalIndex("udp_packets") == 10
    ensures NameText("udp_lost_packets") && IntervalIndex("udp_lost_packets") == 11
  {
  }

  lemma UdpRestNames()
    ensures NameText("udp_jitter_seconds") && IntervalIndex("udp_jitter_seconds") == 12
    ensures NameText("udp_out_of_order_packets") && IntervalIndex("udp_out_of_order_packets") == 13
  {
  }

  lemma OmittedName()
    ensures NameText("omitted_intervals") && IntervalIndex("omitted_intervals") == 14
  {
  }

  lemma TotalNames()
    ensures NameText("window_duration_seconds") && WindowIndex("window_duration_seconds") == 0
    ensures NameText("window_transferred_bytes") && WindowIndex("window_transferred_bytes") == 1
  {
  }

  lemma StreamCountName()
    ensures NameText("window_stream_count") && WindowIndex("window_stream_count") == 2
  {
  }

  lemma TcpCounterNames()
    ensures NameText("window_tcp_retransmits") && WindowIndex("window_tcp_retransmits") == 24
    ensures NameText("window_tcp_reorder_events") && WindowIndex("window_tcp_reorder_events") == 25
  {
  }

  lemma UdpCounterNames()
    ensures NameText("window_udp_packets") && WindowIndex("window_udp_packets") == 26
    ensures NameText("window_udp_lost_packets") && WindowIndex("window_udp_lost_packets") == 27
  {
  }

  lemma LastNames()
    ensures NameText("window_udp_out_of_order_packets") && WindowIndex("window_udp_out_of_order_packets") == 28
    ensures NameText("window_omitted_intervals") && WindowIndex("window_omitted_intervals") == 29
  {
  }

  /** The three names that `gauge_stats` makes of a stem and a unit. */
  predicate StatNames(stem: string, unit: string, base: int) {
    && NameText(stem + "_mean_" + unit) && WindowIndex(stem + "_mean_" + unit) == base
    && NameText(stem + "_min_" + unit) && WindowIndex(stem + "_min_" + unit) == base + 1
    && NameText(stem + "_max_" + unit) && WindowIndex(stem + "_max_" + unit) == base + 2
  }

  lemma BandwidthNames()
    ensures StatNames("window_bandwidth", "bits_per_second", 3)
  {
  }

  lemma RttNames()
    ensures StatNames("window_tcp_rtt", "seconds", 6)
  {
  }

  lemma RttvarNames()
    ensures StatNames("window_tcp_rttvar", "seconds", 9)
  {
  }

  lemma SndCwndNames()
    ensures StatNames("window_tcp_snd_cwnd", "bytes", 12)
  {
  }

  lemma SndWndNames()
    ensures StatNames("window_tcp_snd_wnd", "bytes", 15)
  {
  }

  lemma PmtuNames()
    ensures StatNames("window_tcp_pmtu", "bytes", 18)
  {
  }

  lemma JitterNames()
    ensures StatNames("window_udp_jitter", "seconds", 21)
  {
  }

  lemma StatsIndexed(prefix: string, stem: string, unit: string, stats: GaugeStats, base: int)
    requires ValidName(prefix) && StatNames(stem, unit, base)
    ensures Indexed(WindowIndex, StatsTable(prefix, stem, unit, stats), prefix, base)
  {
    hide IndexedEntry, MetricName, ValidName, NameText, WindowIndex;
    var table := StatsTable(prefix, stem, unit, stats);
    Named(WindowIndex, prefix, stem + "_mean_" + unit, table[0].1);
    Named(WindowIndex, prefix, stem + "_min_" + unit, table[1].1);
    Named(WindowIndex, prefix, stem + "_max_" + unit, table[2].1);
  }

  lemma IntervalTcpIndexed(m: Metrics, prefix: string)
    requires ValidName(prefix)
    ensures Indexed(IntervalIndex, IntervalTcp(m, prefix), prefix, 0)
  {
    hide IndexedEntry, MetricName, ValidName, NameText, IntervalIndex;
    var table := IntervalTcp(m, prefix);
    TransferNames();
    TcpNames();
    TcpPathNames();
    Named(IntervalIndex, prefix, "transferred_bytes", table[0].1);
    Named(IntervalIndex, prefix, "bandwidth_bits_per_second", table[1].1);
    Named(IntervalIndex, prefix, "stream_count", table[2].1);
    Named(IntervalIndex, prefix, "tcp_retransmits", table[3].1);
    Named(IntervalIndex, prefix, "tcp_rtt_seconds", table[4].1);
    Named(IntervalIndex, prefix, "tcp_rttvar_seconds", table[5].1);
    Named(IntervalIndex, prefix, "tcp_snd_cwnd_bytes", table[6].1);
    Named(IntervalIndex, prefix, "tcp_snd_wnd_bytes", table[7].1);
    Named(IntervalIndex, prefix, "tcp_pmtu_bytes", table[8].1);
    Named(IntervalIndex, prefix, "tcp_reorder_events", table[9].1);
  }

  lemma IntervalUdpIndexed(m: Metrics, prefix: string)
    requires ValidName(prefix)
    ensures Indexed(IntervalIndex, IntervalUdp(m, prefix), prefix, 10)
  {
    hide IndexedEntry, MetricName, ValidName, NameText, IntervalIndex;
    var table := IntervalUdp(m, prefix);
    UdpNames();
    UdpRestNames();
    OmittedName();
    Named(IntervalIndex, prefix, "udp_packets", table[0].1);
    Named(IntervalIndex, prefix, "udp_lost_packets", table[1].1);
    Named(IntervalIndex, prefix, "udp_jitter_seconds", table[2].1);
    Named(IntervalIndex, prefix, "udp_out_of_order_packets", table[3].1);
    Named(IntervalIndex, prefix, "omitted_intervals", table[4].1);
  }

  lemma WindowTotalsIndexed(w: WindowMetrics, prefix: string)
    requires ValidName(prefix)
    ensures Indexed(WindowIndex, WindowTotals(w, prefix), prefix, 0)
  {
    hide IndexedEntry, MetricName, ValidName, NameText, WindowIndex;
    var table := WindowTotals(w, prefix);
    TotalNames();
    StreamCountName();
    Named(WindowIndex, prefix, "window_duration_seconds", table[0].1);
    Named(WindowIndex, prefix, "window_transferred_bytes", table[1].1);
    Named(WindowIndex, prefix, "window_stream_count", table[2].1);
  }

  lemma WindowCountersIndexed(w: WindowMetrics, prefix: string)
    requires ValidName(prefix)
    ensures Indexed(WindowIndex, WindowCounters(w, prefix), prefix, 24)
  {
    hide IndexedEntry, MetricName, ValidName, NameText, WindowIndex;
    var table := WindowCounters(w, prefix);
    TcpCounterNames();
    UdpCounterNames();
    LastNames();
    Named(WindowIndex, prefix, "window_tcp_retransmits", table[0].1);
    Named(WindowIndex, prefix, "window_tcp_reorder_events", table[1].1);
    Named(WindowIndex, prefix, "window_udp_packets", table[2].1);
    Named(WindowIndex, prefix, "window_udp_lost_packets", table[3].1);
    Named(WindowIndex, prefix, "window_udp_out_of_order_packets", table[4].1);
    Named(WindowIndex, prefix, "window_omitted_intervals", table[5].1);
  }

  lemma WindowIndexed(w: WindowMetrics, prefix: string)
    requires ValidName(prefix)
    ensures Indexed(WindowIndex, WindowTable(w, prefix), prefix, 0)
  {
    hide Indexed, StatNames, StatsTable, WindowTotals, WindowCounters, WindowIndex;
    WindowTotalsIndexed(w, prefix);
    ghost var done := WindowTotals(w, prefix);
    BandwidthNames();
    done := MoreIndexed(done, prefix, "window_bandwidth", "bits_per_second", w.bandwidth, 3);
    RttNames();
    done := MoreIndexed(done, prefix, "window_tcp_rtt", "seconds", w.tcpRtt, 6);
    RttvarNames();
    done := MoreIndexed(done, prefix, "window_tcp_rttvar", "seconds", w.tcpRttvar, 9);
    SndCwndNames();
    done := MoreIndexed(done, prefix, "window_tcp_snd_cwnd", "bytes", w.tcpSndCwnd, 12);
    SndWndNames();
    done := MoreIndexed(done, prefix, "window_tcp_snd_wnd", "bytes", w.tcpSndWnd, 15);
    PmtuNames();
    done := MoreIndexed(done, prefix, "window_tcp_pmtu", "bytes", w.tcpPmtu, 18);
    JitterNames();
    done := MoreIndexed(done, prefix, "window_udp_jitter", "seconds", w.udpJitter, 21);
    WindowCountersIndexed(w, prefix);
    IndexedConcat(WindowIndex, done, WindowCounters(w, prefix), prefix, 0);
  }

  lemma MoreIndexed(done: seq<Entry>, prefix: string, stem: string, unit: string, stats: GaugeStats, at: nat)
    returns (more: seq<Entry>)
    requires Indexed(WindowIndex, done, prefix, 0) && |done| == at
    requires ValidName(prefix) && StatNames(stem, unit, at)
    ensures more == done + StatsTable(prefix, stem, unit, stats) && |more| == at + 3
    ensures Indexed(WindowIndex, more, prefix, 0)
  {
    hide Indexed;
    StatsIndexed(prefix, stem, unit, stats, at);
    IndexedConcat(WindowIndex, done, StatsTable(prefix, stem, unit, stats), prefix, 0);
    more := done + StatsTable(prefix, stem, unit, stats);
  }

  // ---- Main results ----

  /** A snapshot that reads back as its table: the present families, each once, with their values and all the labels. */
  ghost predicate ReadsBackAs(text: string, table: seq<Entry>, labels: seq<Label>, format: Formatter) {
    && ReadText(text) == Some(SamplesOf(table, labels, format))
    && UniqueNames(SamplesOf(table, labels, format))
    && (forall entry <- table :: entry.1.Some? ==>
          Sample(entry.0, labels, format(entry.1.value)) in SamplesOf(table, labels, format))
    && (forall entry <- table :: entry.1.None? ==>
          forall sample <- SamplesOf(table, labels, format) :: sample.name != entry.0)
  }

  lemma UniqueTableReadsBack(table: seq<Entry>, labels: seq<Label>, format: Formatter)
    requires ValidTable(table) && Unique(table) && ValidNames(labels) && PlainFormatter(format)
    ensures ReadsBackAs(TableText(table, LabelSetText(labels), format), table, labels, format)
  {
    hide ReadText, TableText, SamplesOf, LabelSetText, ValidName, Plain;
    TableReadsBack(table, labels, format);
    PresentExactly(table, labels, format);
    forall entry <- table | entry.1.None?
      ensures forall sample <- SamplesOf(table, labels, format) :: sample.name != entry.0
    {
      forall sample <- SamplesOf(table, labels, format) ensures sample.name != entry.0 {
        var other :| other in table && other.1.Some? && sample == Sample(other.0, labels, format(other.1.value));
        var i :| 0 <= i < |table| && table[i] == entry;
        var j :| 0 <= j < |table| && table[j] == other;
        assert i < j || j < i;
      }
    }
  }

  /** Main result: an interval snapshot reads back, for every sample, valid prefix, labels and formatter. */
  lemma IntervalReadsBack(m: Metrics, prefix: string, labels: seq<Label>, format: Formatter)
    requires ValidName(prefix) && ValidNames(labels) && PlainFormatter(format)
    ensures var table := IntervalTable(m, prefix);
            ReadsBackAs(TableText(table, LabelSetText(labels), format), table, labels, format)
  {
    hide Indexed, ReadsBackAs, ValidTable, Unique, IntervalTcp, IntervalUdp, PlainFormatter;
    IntervalTcpIndexed(m, prefix);
    IntervalUdpIndexed(m, prefix);
    IndexedConcat(IntervalIndex, IntervalTcp(m, prefix), IntervalUdp(m, prefix), prefix, 0);
    IndexedIsUnique(IntervalIndex, IntervalTable(m, prefix), prefix, 0);
    UniqueTableReadsBack(IntervalTable(m, prefix), labels, format);
  }

  /** Main result: a window snapshot reads back likewise. */
  lemma WindowReadsBack(w: WindowMetrics, prefix: string, labels: seq<Label>, format: Formatter)
    requires ValidName(prefix) && ValidNames(labels) && PlainFormatter(format)
    ensures var table := WindowTable(w, prefix);
            ReadsBackAs(TableText(table, LabelSetText(labels), format), table, labels, format)
  {
    hide Indexed, ReadsBackAs, ValidTable, Unique, WindowTable, PlainFormatter;
    WindowIndexed(w, prefix);
    IndexedIsUnique(WindowIndex, WindowTable(w, prefix), prefix, 0);
    UniqueTableReadsBack(WindowTable(w, prefix), labels, format);
  }

  /** The gauges of a window by the stem and the unit of their families. */
  function StatsOf(w: WindowMetrics): seq<(string, string, GaugeStats)> {
    [("window_bandwidth", "bits_per_second", w.bandwidth), ("window_tcp_rtt", "seconds", w.tcpRtt),
     ("window_tcp_rttvar", "seconds", w.tcpRttvar), ("window_tcp_snd_cwnd", "bytes", w.tcpSndCwnd),
     ("window_tcp_snd_wnd", "bytes", w.tcpSndWnd), ("window_tcp_pmtu", "bytes", w.tcpPmtu),
     ("window_udp_jitter", "seconds", w.udpJitter)]
  }

  lemma StatsAreInTable(w: WindowMetrics, prefix: string, k: nat)
    requires k < |StatsOf(w)|
    ensures var (stem, unit, stats) := StatsOf(w)[k];
            forall entry <- StatsTable(prefix, stem, unit, stats) :: entry in WindowTable(w, prefix)
  {
    hide StatsTable, WindowTotals, WindowCounters, MetricName;
  }

  lemma StatsAbsentExactly(prefix: string, stem: string, unit: string, stats: GaugeStats)
    ensures forall entry <- StatsTable(prefix, stem, unit, stats) :: entry.1.None? <==> stats.samples == 0
  {
  }

  /**
   Main result: what is read of a window has the three families of a gauge exactly when the gauge observed something.
   */
  lemma GaugesAppearWhenObserved(w: WindowMetrics, prefix: string, labels: seq<Label>, format: Formatter, k: nat)
    requires ValidName(prefix) && ValidNames(labels) && PlainFormatter(format) && k < |StatsOf(w)|
    ensures var read := ReadText(TableText(WindowTable(w, prefix), LabelSetText(labels), format));
            var (stem, unit, stats) := StatsOf(w)[k];
            && read.Some?
            && forall entry <- StatsTable(prefix, stem, unit, stats) ::
                 (exists sample <- read.value :: sample.name == entry.0) <==> stats.samples > 0
  {
    hide StatsTable, WindowTable, ReadText, TableText, LabelSetText, SamplesOf, StatsOf, ValidName, PlainFormatter,
         UniqueNames;
    var (stem, unit, stats) := StatsOf(w)[k];
    WindowReadsBack(w, prefix, labels, format);
    StatsAreInTable(w, prefix, k);
    StatsAbsentExactly(prefix, stem, unit, stats);
    var samples := SamplesOf(WindowTable(w, prefix), labels, format);
    forall entry <- StatsTable(prefix, stem, unit, stats)
      ensures (exists sample <- samples :: sample.name == entry.0) <==> stats.samples > 0
    {
      if entry.1.Some? {
        assert Sample(entry.0, labels, format(entry.1.value)) in samples;
      }
    }
  }

  // ---- What each family says ----

  /** Of all that was read, the one sample of this name has this value; without a value there is none. */
  ghost predicate Says(samples: seq<Sample>, labels: seq<Label>, format: Formatter, name: string, value: Option<F64>) {
    match value
    case Some(v) =>
      && Sample(name, labels, format(v)) in samples
      && forall sample <- samples :: sample.name == name ==> sample == Sample(name, labels, format(v))
    case None => forall sample <- samples :: sample.name != name
  }

  /** The families of a gauge say its mean, its least and its greatest value, if it observed any. */
  ghost predicate SaysStats(samples: seq<Sample>, labels: seq<Label>, format: Formatter, prefix: string,
                            stem: string, unit: string, stats: GaugeStats) {
    if stats.samples > 0 then
      && Says(samples, labels, format, prefix + "_" + (stem + "_mean_" + unit), Some(Finite(stats.mean)))
      && Says(samples, labels, format, prefix + "_" + (stem + "_min_" + unit), Some(Finite(stats.min)))
      && Says(samples, labels, format, prefix + "_" + (stem + "_max_" + unit), Some(Finite(stats.max)))
    else
      && Says(samples, labels, format, prefix + "_" + (stem + "_mean_" + unit), None)
      && Says(samples, labels, format, prefix + "_" + (stem + "_min_" + unit), None)
      && Says(samples, labels, format, prefix + "_" + (stem + "_max_" + unit), None)
  }

  lemma EntriesAreSaid(text: string, table: seq<Entry>, labels: seq<Label>, format: Formatter)
    requires ReadsBackAs(text, table, labels, format)
    ensures ReadText(text).Some?
    ensures forall entry <- table :: Says(ReadText(text).value, labels, format, entry.0, entry.1)
  {
    hide ReadText, SamplesOf;
    var samples := SamplesOf(table, labels, format);
    forall entry <- table ensures Says(samples, labels, format, entry.0, entry.1) {
      if entry.1.Some? {
        var said := Sample(entry.0, labels, format(entry.1.value));
        var i :| 0 <= i < |samples| && samples[i] == said;
        forall sample <- samples | sample.name == entry.0 ensures sample == said {
          var j :| 0 <= j < |samples| && samples[j] == sample;
          assert i == j || i < j || j < i;
        }
      }
    }
  }

  /** The families of an interval, by name, in the terms of the sample. */
  ghost predicate SaysTcp(samples: seq<Sample>, labels: seq<Label>, format: Formatter, prefix: string, m: Metrics) {
    && Says(samples, labels, format, prefix + "_" + "transferred_bytes", Some(m.transferredBytes))
    && Says(samples, labels, format, prefix + "_" + "bandwidth_bits_per_second", Some(m.bandwidth))
    && Says(samples, labels, format, prefix + "_" + "stream_count", Some(Finite(m.context.streamCount as real)))
    && Says(samples, labels, format, prefix + "_" + "tcp_retransmits", m.tcpRetransmits)
    && Says(samples, labels, format, prefix + "_" + "tcp_rtt_seconds", m.tcpRtt)
    && Says(samples, labels, format, prefix + "_" + "tcp_rttvar_seconds", m.tcpRttvar)
    && Says(samples, labels, format, prefix + "_" + "tcp_snd_cwnd_bytes", m.tcpSndCwnd)
    && Says(samples, labels, format, prefix + "_" + "tcp_snd_wnd_bytes", m.tcpSndWnd)
    && Says(samples, labels, format, prefix + "_" + "tcp_pmtu_bytes", m.tcpPmtu)
    && Says(samples, labels, format, prefix + "_" + "tcp_reorder_events", m.tcpReorderEvents)
  }

  ghost predicate SaysUdp(samples: seq<Sample>, labels: seq<Label>, format: Formatter, prefix: string, m: Metrics) {
    && Says(samples, labels, format, prefix + "_" + "udp_packets", m.udpPackets)
    && Says(samples, labels, format, prefix + "_" + "udp_lost_packets", m.udpLostPackets)
    && Says(samples, labels, format, prefix + "_" + "udp_jitter_seconds", m.udpJitter)
    && Says(samples, labels, format, prefix + "_" + "udp_out_of_order_packets", m.udpOutOfOrderPackets)
    && Says(samples, labels, format, prefix + "_" + "omitted_intervals", Some(Finite(if m.omitted then 1.0 else 0.0)))
  }

  lemma TcpIsSaid(samples: seq<Sample>, labels: seq<Label>, format: Formatter, prefix: string, m: Metrics)
    requires forall entry <- IntervalTcp(m, prefix) :: Says(samples, labels, format, entry.0, entry.1)
    ensures SaysTcp(samples, labels, format, prefix, m)
  {
    hide Says;
    var table := IntervalTcp(m, prefix);
    assert forall k | 0 <= k < 10 :: Says(samples, labels, format, table[k].0, table[k].1);
  }

  lemma UdpIsSaid(samples: seq<Sample>, labels: seq<Label>, format: Formatter, prefix: string, m: Metrics)
    requires forall entry <- IntervalUdp(m, prefix) :: Says(samples, labels, format, entry.0, entry.1)
    ensures SaysUdp(samples, labels, format, prefix, m)
  {
    hide Says;
    var table := IntervalUdp(m, prefix);
    assert forall k | 0 <= k < 5 :: Says(samples, labels, format, table[k].0, table[k].1);
  }

  /** Main result: whoever reads the text of an interval finds each value of the sample under its own family's name. */
  lemma IntervalSays(m: Metrics, prefix: string, labels: seq<Label>, format: Formatter)
    requires ValidName(prefix) && ValidNames(labels) && PlainFormatter(format)
    ensures var read := ReadText(TableText(IntervalTable(m, prefix), LabelSetText(labels), format));
            && read.Some?
            && SaysTcp(read.value, labels, format, prefix, m) && SaysUdp(read.value, labels, format, prefix, m)
  {
    hide ReadText, TableText, LabelSetText, ReadsBackAs, Says, SaysTcp, SaysUdp, IntervalTcp, IntervalUdp,
         PlainFormatter;
    IntervalReadsBack(m, prefix, labels, format);
    var text := TableText(IntervalTable(m, prefix), LabelSetText(labels), format);
    EntriesAreSaid(text, IntervalTable(m, prefix), labels, format);
    TcpIsSaid(ReadText(text).value, labels, format, prefix, m);
    UdpIsSaid(ReadText(text).value, labels, format, prefix, m);
  }

  ghost predicate SaysTotals(samples: seq<Sample>, labels: seq<Label>, format: Formatter, prefix: string,
                             w: WindowMetrics) {
    && Says(samples, labels, format, prefix + "_" + "window_duration_seconds", Some(Finite(w.duration)))
    && Says(samples, labels, format, prefix + "_" + "window_transferred_bytes", Some(Finite(w.transferredBytes)))
    && Says(samples, labels, format, prefix + "_" + "window_stream_count", Some(Finite(w.context.streamCount as real)))
  }

  /** A counter is said exactly if the window has a total of it. */
  ghost predicate SaysCount(samples: seq<Sample>, labels: seq<Label>, format: Formatter, name: string,
                            total: Option<real>) {
    && (total.Some? ==> Says(samples, labels, format, name, Some(Finite(total.value))))
    && (total.None? ==> Says(samples, labels, format, name, None))
  }

  ghost predicate SaysCounters(samples: seq<Sample>, labels: seq<Label>, format: Formatter, prefix: string,
                               w: WindowMetrics) {
    && SaysCount(samples, labels, format, prefix + "_" + "window_tcp_retransmits", w.tcpRetransmits)
    && SaysCount(samples, labels, format, prefix + "_" + "window_tcp_reorder_events", w.tcpReorderEvents)
    && SaysCount(samples, labels, format, prefix + "_" + "window_udp_packets", w.udpPackets)
    && SaysCount(samples, labels, format, prefix + "_" + "window_udp_lost_packets", w.udpLostPackets)
    && SaysCount(samples, labels, format, prefix + "_" + "window_udp_out_of_order_packets", w.udpOutOfOrderPackets)
    && Says(samples, labels, format, prefix + "_" + "window_omitted_intervals", Some(Finite(w.omittedIntervals)))
  }

  ghost predicate SaysGauges(samples: seq<Sample>, labels: seq<Label>, format: Formatter, prefix: string,
                             w: WindowMetrics) {
    && SaysStats(samples, labels, format, prefix, "window_bandwidth", "bits_per_second", w.bandwidth)
    && SaysStats(samples, labels, format, prefix, "window_tcp_rtt", "seconds", w.tcpRtt)
    && SaysStats(samples, labels, format, prefix, "window_tcp_rttvar", "seconds", w.tcpRttvar)
    && SaysStats(samples, labels, format, prefix, "window_tcp_snd_cwnd", "bytes", w.tcpSndCwnd)
    && SaysStats(samples, labels, format, prefix, "window_tcp_snd_wnd", "bytes", w.tcpSndWnd)
    && SaysStats(samples, labels, format, prefix, "window_tcp_pmtu", "bytes", w.tcpPmtu)
    && SaysStats(samples, labels, format, prefix, "window_udp_jitter", "seconds", w.udpJitter)
  }

  lemma TotalsAreSaid(samples: seq<Sample>, labels: seq<Label>, format: Formatter, prefix: string, w: WindowMetrics)
    requires forall entry <- WindowTotals(w, prefix) :: Says(samples, labels, format, entry.0, entry.1)
    ensures SaysTotals(samples, labels, format, prefix, w)
  {
    hide Says;
    var table := WindowTotals(w, prefix);
    assert forall k | 0 <= k < 3 :: Says(samples, labels, format, table[k].0, table[k].1);
  }

  lemma CountersAreSaid(samples: seq<Sample>, labels: seq<Label>, format: Formatter, prefix: string, w: WindowMetrics)
    requires forall entry <- WindowCounters(w, prefix) :: Says(samples, labels, format, entry.0, entry.1)
    ensures SaysCounters(samples, labels, format, prefix, w)
  {
    hide Says;
    var table := WindowCounters(w, prefix);
    assert forall k | 0 <= k < 6 :: Says(samples, labels, format, table[k].0, table[k].1);
  }

  lemma StatsAreSaid(samples: seq<Sample>, labels: seq<Label>, format: Formatter, prefix: string,
                     stem: string, unit: string, stats: GaugeStats)
    requires forall entry <- StatsTable(prefix, stem, unit, stats) :: Says(samples, labels, format, entry.0, entry.1)
    ensures SaysStats(samples, labels, format, prefix, stem, unit, stats)
  {
    hide Says;
    var table := StatsTable(prefix, stem, unit, stats);
    assert forall k | 0 <= k < 3 :: Says(samples, labels, format, table[k].0, table[k].1);
  }

  lemma GaugesAreSaid(samples: seq<Sample>, labels: seq<Label>, format: Formatter, prefix: string, w: WindowMetrics)
    requires forall entry <- WindowTable(w, prefix) :: Says(samples, labels, format, entry.0, entry.1)
    ensures SaysGauges(samples, labels, format, prefix, w)
  {
    hide Says, SaysStats, WindowTable, StatsTable;
    GaugeIsSaid(samples, labels, format, prefix, w, 0);
    GaugeIsSaid(samples, labels, format, prefix, w, 1);
    GaugeIsSaid(samples, labels, format, prefix, w, 2);
    GaugeIsSaid(samples, labels, format, prefix, w, 3);
    GaugeIsSaid(samples, labels, format, prefix, w, 4);
    GaugeIsSaid(samples, labels, format, prefix, w, 5);
    GaugeIsSaid(samples, labels, format, prefix, w, 6);
  }

  lemma GaugeIsSaid(samples: seq<Sample>, labels: seq<Label>, format: Formatter, prefix: string, w: WindowMetrics,
                    k: nat)
    requires k < |StatsOf(w)|
    requires forall entry <- WindowTable(w, prefix) :: Says(samples, labels, format, entry.0, entry.1)
    ensures var (stem, unit, stats) := StatsOf(w)[k]; SaysStats(samples, labels, format, prefix, stem, unit, stats)
  {
    hide Says, SaysStats, WindowTable, StatsTable, StatsOf;
    var (stem, unit, stats) := StatsOf(w)[k];
    StatsAreInTable(w, prefix, k);
    StatsAreSaid(samples, labels, format, prefix, stem, unit, stats);
  }

  lemma PartsOfTable(w: WindowMetrics, prefix: string)
    ensures forall entry <- WindowTotals(w, prefix) :: entry in WindowTable(w, prefix)
    ensures forall entry <- WindowCounters(w, prefix) :: entry in WindowTable(w, prefix)
  {
    hide StatsTable, WindowTotals, WindowCounters, MetricName;
  }

  /** Main result: so does the text of a window, with three families for a gauge that observed something. */
  lemma WindowSays(w: WindowMetrics, prefix: string, labels: seq<Label>, format: Formatter)
    requires ValidName(prefix) && ValidNames(labels) && PlainFormatter(format)
    ensures var read := ReadText(TableText(WindowTable(w, prefix), LabelSetText(labels), format));
            && read.Some?
            && SaysTotals(read.value, labels, format, prefix, w)
            && SaysGauges(read.value, labels, format, prefix, w)
            && SaysCounters(read.value, labels, format, prefix, w)
  {
    hide ReadText, TableText, LabelSetText, ReadsBackAs, Says, SaysTotals, SaysGauges, SaysCounters, WindowTable,
         WindowTotals, WindowCounters, PlainFormatter;
    WindowReadsBack(w, prefix, labels, format);
    var text := TableText(WindowTable(w, prefix), LabelSetText(labels), format);
    EntriesAreSaid(text, WindowTable(w, prefix), labels, format);
    PartsOfTable(w, prefix);
    TotalsAreSaid(ReadText(text).value, labels, format, prefix, w);
    GaugesAreSaid(ReadText(text).value, labels, format, prefix, w);
    CountersAreSaid(ReadText(text).value, labels, format, prefix, w);
  }

  // ---- Validation ----

  datatype Invalid = BadPrefix | BadName(name: string) | Reserved | EmptyValue(name: string) | Duplicate(name: string)

  predicate ValidLabel(pair: Label) {
    ValidName(pair.0) && pair.0 != "__name__" && pair.1 != ""
  }

  method ValidateMetricPrefix(prefix: string) returns (result: Result<(), Invalid>)
    ensures result == if ValidName(prefix) then Ok(()) else Err(BadPrefix)
  {
    var ok := IsValidName(prefix);
    result := if ok then Ok(()) else Err(BadPrefix);
  }

  method ValidateLabels(labels: seq<Label>) returns (result: Result<(), Invalid>)
    ensures result.Ok?
            <==> && Distinct(labels)
                 && forall pair <- labels :: ValidName(pair.0) && pair.0 != "__name__" && pair.1 != ""
    ensures result.Err? && result.error.Duplicate? ==> forall pair <- labels :: ValidLabel(pair)
  {
    for i := 0 to |labels|
      invariant forall k | 0 <= k < i :: ValidLabel(labels[k])
    {
      var (name, value) := labels[i];
      assert labels[i] in labels;
      var ok := IsValidName(name);
      if !ok {
        return Err(BadName(name));
      }
      if name == "__name__" {
        return Err(Reserved);
      }
      if value == "" {
        return Err(EmptyValue(name));
      }
    }
    var at := FirstDuplicate(labels);
    result := if at == |labels| then Ok(()) else Err(Duplicate(labels[at].0));
  }
}
