/**
 The Pushgateway grouping path of src/pushgateway.rs: job and labels become path segments, percent-encoded, or
 base64url-encoded where a percent-encoded value would not survive routing. A text stands for its UTF-8 bytes, one
 character a byte.
 */
module GroupingPath {
  import opened Decimal
  import opened TextBuffers
  import opened Texts
  import opened Wrappers

  predicate IsByte(c: char) {
    c as int < 256
  }

  predicate IsBytes(s: string) {
    forall i | 0 <= i < |s| :: IsByte(s[i])
  }

  // ---- Percent-encoding (sections 2.1 and 2.3 of RFC 3986) ----

  predicate IsUnreserved(c: char) {
    IsAlpha(c) || IsDigit(c) || c == '-' || c == '_' || c == '.' || c == '~'
  }

  function HexDigit(n: nat): (c: char)
    requires n < 16
    ensures HexValue(c) == Some(n) && ('0' <= c <= '9' || 'A' <= c <= 'F')
  {
    "0123456789ABCDEF"[n]
  }

  /** Either case is read; section 2.1 of RFC 3986 makes them equivalent. */
  function HexValue(c: char): Option<nat> {
    if IsDigit(c) then Some((c - '0') as nat)
    else if 'A' <= c <= 'F' then Some((c - 'A') as nat + 10)
    else if 'a' <= c <= 'f' then Some((c - 'a') as nat + 10)
    else None
  }

  /** Percent-decoding, which knows nothing of which bytes an encoder chooses to escape. */
  function PercentDecode(s: string): Option<string> {
    if s == "" then Some("")
    else if s[0] == '%' then
      if |s| < 3 then None
      else match (HexValue(s[1]), HexValue(s[2]), PercentDecode(s[3..]))
        case (Some(high), Some(low), Some(rest)) => Some([(16 * high + low) as char] + rest)
        case _ => None
    else match PercentDecode(s[1..])
      case Some(rest) => Some([s[0]] + rest)
      case None => None
  }

  datatype EncodedPathByte = EncodedPathByte(bytes: string, len: nat) {
    function Text(): string
      requires len <= |bytes|
    {
      bytes[..len]
    }
  }

  predicate UpperHex(c: char) {
    '0' <= c <= '9' || 'A' <= c <= 'F'
  }

  /** `encode_path_byte`: the text is itself only for an unreserved byte, and decodes to the byte. */
  function EncodePathByte(c: char): (e: EncodedPathByte)
    requires IsByte(c)
    ensures |e.bytes| == 3 && 0 < e.len <= 3
    ensures e.Text() == [c]
            <==> 'a' <= c <= 'z' || 'A' <= c <= 'Z' || '0' <= c <= '9' || c == '-' || c == '_' || c == '.' || c == '~'
    ensures e.Text() == [c] || (e.len == 3 && e.bytes[0] == '%' && UpperHex(e.bytes[1]) && UpperHex(e.bytes[2]))
    ensures forall i | 0 <= i < e.len :: IsUnreserved(e.bytes[i]) || e.bytes[i] == '%'
    ensures PercentDecode(e.Text()) == Some([c])
  {
    if IsUnreserved(c) then
      assert [c, '\0', '\0'][..1] == [c] && [c][1..] == "" && [c] + "" == [c];
      EncodedPathByte([c, '\0', '\0'], 1)
    else
      var text := ['%', HexDigit(c as nat / 16), HexDigit(c as nat % 16)];
      assert text[3..] == "" && text[..3] == text;
      EncodedPathByte(text, 3)
  }

  function Segment(raw: string): string
    requires IsBytes(raw)
  {
    if raw == "" then "" else Segment(raw[..|raw| - 1]) + EncodePathByte(raw[|raw| - 1]).Text()
  }

  method EncodePathSegment(raw: string) returns (encoded: string)
    requires IsBytes(raw)
    ensures encoded == Segment(raw)
  {
    hide EncodePathByte, PercentDecode, IsUnreserved;
    var buffer := new TextBuffer("");
    for i := 0 to |raw|
      invariant buffer.text == Segment(raw[..i])
    {
      var byte := EncodePathByte(raw[i]);
      for k := 0 to byte.len
        invariant buffer.text == Segment(raw[..i]) + byte.bytes[..k]
      {
        buffer.Push(byte.bytes[k]);
      }
      assert raw[..i + 1][..i] == raw[..i];
    }
    assert raw[..|raw|] == raw;
    encoded := buffer.text;
  }

  lemma {:induction false} DecodeConcat(a: string, b: string)
    requires PercentDecode(a).Some? && PercentDecode(b).Some?
    ensures PercentDecode(a + b) == Some(PercentDecode(a).value + PercentDecode(b).value)
  {
    hide PercentDecode, DecodesTo;
    if a == "" {
      NothingDecodes();
      assert a + b == b;
      assert "" + PercentDecode(b).value == PercentDecode(b).value;
    } else {
      var step := if a[0] == '%' then 3 else 1;
      DecodeStep(a);
      DecodeStep(a + b);
      DecodeConcat(a[step..], b);
      assert (a + b)[step..] == a[step..] + b;
      SameHead(a, b);
      Associative([DecodesTo(a).value], PercentDecode(a[step..]).value, PercentDecode(b).value);
    }
  }

  /** The first byte that a text decodes to. */
  function DecodesTo(s: string): Option<char>
    requires s != ""
  {
    if s[0] != '%' then Some(s[0])
    else if |s| < 3 then None
    else match (HexValue(s[1]), HexValue(s[2]))
      case (Some(high), Some(low)) => Some((16 * high + low) as char)
      case _ => None
  }

  lemma SameHead(a: string, b: string)
    requires a != "" && DecodesTo(a).Some?
    ensures DecodesTo(a + b) == DecodesTo(a)
  {
    hide HexValue;
  }

  lemma NothingDecodes()
    ensures PercentDecode("") == Some("")
  {
  }

  lemma DecodeStep(s: string)
    requires s != ""
    ensures var step := if s[0] == '%' then 3 else 1;
            && (PercentDecode(s).Some? ==> step <= |s| && DecodesTo(s).Some? && PercentDecode(s[step..]).Some?)
            && (step <= |s| && DecodesTo(s).Some? && PercentDecode(s[step..]).Some? ==>
                  PercentDecode(s) == Some([DecodesTo(s).value] + PercentDecode(s[step..]).value))
  {
    hide HexValue;
  }

  lemma {:induction false} DecodePlain(s: string)
    requires '%' !in s
    ensures PercentDecode(s) == Some(s)
  {
    if s != "" {
      DecodePlain(s[1..]);
      assert s == [s[0]] + s[1..];
    }
  }

  /** Main result: every byte string comes back from its path segment. */
  lemma {:induction false} SegmentRoundTrip(raw: string)
    requires IsBytes(raw)
    ensures PercentDecode(Segment(raw)) == Some(raw)
  {
    if raw != "" {
      var n := |raw| - 1;
      SegmentRoundTrip(raw[..n]);
      DecodeConcat(Segment(raw[..n]), EncodePathByte(raw[n]).Text());
      assert raw == raw[..n] + [raw[n]];
    }
  }

  // ---- base64url without padding (sections 3.2 and 5 of RFC 4648) ----

  function Char64(n: nat): (c: char)
    requires n < 64
    ensures Digit64(c) == Some(n)
  {
    if n < 26 then 'A' + n as char
    else if n < 52 then 'a' + (n - 26) as char
    else if n < 62 then '0' + (n - 52) as char
    else if n == 62 then '-'
    else '_'
  }

  function Digit64(c: char): (n: Option<nat>)
    ensures n.Some? ==> n.value < 64
  {
    if 'A' <= c <= 'Z' then Some((c - 'A') as nat)
    else if 'a' <= c <= 'z' then Some((c - 'a') as nat + 26)
    else if '0' <= c <= '9' then Some((c - '0') as nat + 52)
    else if c == '-' then Some(62)
    else if c == '_' then Some(63)
    else None
  }

  function Base64Url(raw: string): string
    requires IsBytes(raw)
  {
    if raw == "" then ""
    else
      var x := raw[0] as nat;
      if |raw| == 1 then [Char64(x / 4), Char64(x % 4 * 16)]
      else
        var y := raw[1] as nat;
        if |raw| == 2 then [Char64(x / 4), Char64(x % 4 * 16 + y / 16), Char64(y % 16 * 4)]
        else
          var z := raw[2] as nat;
          [Char64(x / 4), Char64(x % 4 * 16 + y / 16), Char64(y % 16 * 4 + z / 64), Char64(z % 64)]
              + Base64Url(raw[3..])
  }

  /** A strict reader: four digits make three bytes, and the bits left over at the end must be zero. */
  function Base64Decode(s: string): Option<string> {
    if s == "" then Some("")
    else if |s| == 1 then None
    else match (Digit64(s[0]), Digit64(s[1]))
      case (Some(a), Some(b)) =>
        if |s| == 2 then (if b % 16 == 0 then Some([Joined(a, 4, b / 16)]) else None)
        else (match Digit64(s[2])
          case Some(c) =>
            if |s| == 3 then (if c % 4 == 0 then Some([Joined(a, 4, b / 16), Joined(b % 16, 16, c / 4)]) else None)
            else (match (Digit64(s[3]), Base64Decode(s[4..]))
              case (Some(d), Some(rest)) =>
                Some([Joined(a, 4, b / 16), Joined(b % 16, 16, c / 4), Joined(c % 4, 64, d)] + rest)
              case _ => None)
          case None => None)
      case _ => None
  }

  function Joined(high: nat, scale: nat, low: nat): char
    requires || (scale == 4 && high < 64 && low < 4) || (scale == 16 && high < 16 && low < 16)
             || (scale == 64 && high < 4 && low < 64)
  {
    (high * scale + low) as char
  }

  lemma SextetsRejoin(x: nat, y: nat, z: nat)
    requires x < 256 && y < 256 && z < 256
    ensures x / 4 < 64 && x % 4 * 16 + y / 16 < 64 && y % 16 * 4 + z / 64 < 64 && z % 64 < 64
    ensures x / 4 * 4 + (x % 4 * 16 + y / 16) / 16 == x
    ensures (x % 4 * 16 + y / 16) % 16 * 16 + (y % 16 * 4 + z / 64) / 4 == y
    ensures (y % 16 * 4 + z / 64) % 4 * 64 + z % 64 == z
  {
  }

  lemma QuadDecodes(a: nat, b: nat, c: nat, d: nat, rest: string)
    requires a < 64 && b < 64 && c < 64 && d < 64 && Base64Decode(rest).Some?
    ensures Base64Decode([Char64(a), Char64(b), Char64(c), Char64(d)] + rest)
            == Some([Joined(a, 4, b / 16), Joined(b % 16, 16, c / 4), Joined(c % 4, 64, d)] + Base64Decode(rest).value)
  {
    hide Char64, Digit64, Joined;
    var s := [Char64(a), Char64(b), Char64(c), Char64(d)] + rest;
    assert s[4..] == rest;
  }

  lemma TailsRejoin(x: nat, y: nat)
    requires x < 256 && y < 256
    ensures x / 4 < 64 && x % 4 * 16 < 64 && x % 4 * 16 % 16 == 0 && x / 4 * 4 + x % 4 * 16 / 16 == x
    ensures x % 4 * 16 + y / 16 < 64 && y % 16 * 4 < 64 && y % 16 * 4 % 4 == 0
    ensures x / 4 * 4 + (x % 4 * 16 + y / 16) / 16 == x && (x % 4 * 16 + y / 16) % 16 * 16 + y % 16 * 4 / 4 == y
  {
  }

  lemma PairDecodes64(a: nat, b: nat)
    requires a < 64 && b < 64 && b % 16 == 0
    ensures Base64Decode([Char64(a), Char64(b)]) == Some([Joined(a, 4, b / 16)])
  {
    hide Char64, Digit64, Joined;
  }

  lemma TripleDecodes64(a: nat, b: nat, c: nat)
    requires a < 64 && b < 64 && c < 64 && c % 4 == 0
    ensures Base64Decode([Char64(a), Char64(b), Char64(c)]) == Some([Joined(a, 4, b / 16), Joined(b % 16, 16, c / 4)])
  {
    hide Char64, Digit64, Joined;
  }

  lemma JoinsBack(c: char, high: nat, scale: nat, low: nat)
    requires || (scale == 4 && high < 64 && low < 4) || (scale == 16 && high < 16 && low < 16)
             || (scale == 64 && high < 4 && low < 64)
    requires high * scale + low == c as nat
    ensures Joined(high, scale, low) == c
  {
  }

  lemma ShortRoundTrip(raw: string)
    requires IsBytes(raw) && 0 < |raw| < 3
    ensures Base64Decode(Base64Url(raw)) == Some(raw)
  {
    hide Char64, Digit64, Base64Decode, Joined;
    var x := raw[0] as nat;
    if |raw| == 1 {
      TailsRejoin(x, 0);
      JoinsBack(raw[0], x / 4, 4, x % 4 * 16 / 16);
      PairDecodes64(x / 4, x % 4 * 16);
      assert raw == [raw[0]];
    } else {
      var y := raw[1] as nat;
      TailsRejoin(x, y);
      JoinsBack(raw[0], x / 4, 4, (x % 4 * 16 + y / 16) / 16);
      JoinsBack(raw[1], (x % 4 * 16 + y / 16) % 16, 16, y % 16 * 4 / 4);
      TripleDecodes64(x / 4, x % 4 * 16 + y / 16, y % 16 * 4);
      assert raw == [raw[0], raw[1]];
    }
  }

  /** Main result: every byte string comes back from its base64url text. */
  lemma {:induction false} Base64RoundTrip(raw: string)
    requires IsBytes(raw)
    ensures Base64Decode(Base64Url(raw)) == Some(raw)
    decreases |raw|
  {
    hide Char64, Digit64, Base64Decode;
    if raw == "" {
      assert Base64Decode("") == Some("") by { EmptyDecodes(); }
    } else if |raw| < 3 {
      ShortRoundTrip(raw);
    } else {
      Base64RoundTrip(raw[3..]);
      var x, y, z := raw[0] as nat, raw[1] as nat, raw[2] as nat;
      SextetsRejoin(x, y, z);
      QuadDecodes(x / 4, x % 4 * 16 + y / 16, y % 16 * 4 + z / 64, z % 64, Base64Url(raw[3..]));
      assert raw == [raw[0], raw[1], raw[2]] + raw[3..];
    }
  }

  lemma EmptyDecodes()
    ensures Base64Decode("") == Some("")
  {
  }

  lemma {:induction false} Base64Alphabet(raw: string)
    requires IsBytes(raw)
    ensures forall i | 0 <= i < |Base64Url(raw)| :: Digit64(Base64Url(raw)[i]).Some?
    decreases |raw|
  {
    hide Char64, Digit64;
    if |raw| >= 3 {
      Base64Alphabet(raw[3..]);
    }
  }

  // ---- The grouping path ----

  predicate NeedsBase64(value: string) {
    '/' in value || value == "." || value == ".."
  }

  /** One pair as it is written, and as it stands once percent-decoded. */
  function Pair(pair: Label): string
    requires IsBytes(pair.1)
  {
    "/" + pair.0 + if NeedsBase64(pair.1) then "@base64/" + Base64Url(pair.1) else "/" + Segment(pair.1)
  }

  function DecodedPair(pair: Label): string
    requires IsBytes(pair.1)
  {
    "/" + pair.0 + if NeedsBase64(pair.1) then "@base64/" + Base64Url(pair.1) else "/" + pair.1
  }

  predicate AllBytes(labels: seq<Label>) {
    forall i | 0 <= i < |labels| :: IsBytes(labels[i].1)
  }

  function Tail(labels: seq<Label>): string
    requires AllBytes(labels)
  {
    if labels == [] then "" else Pair(labels[0]) + Tail(labels[1..])
  }

  function DecodedTail(labels: seq<Label>): string
    requires AllBytes(labels)
  {
    if labels == [] then "" else DecodedPair(labels[0]) + DecodedTail(labels[1..])
  }

  /** `trim_end_matches('/')`. */
  function TrimEnd(path: string): (trimmed: string)
    ensures trimmed <= path && (trimmed == "" || trimmed[|trimmed| - 1] != '/')
    ensures forall i | |trimmed| <= i < |path| :: path[i] == '/'
  {
    if path != "" && path[|path| - 1] == '/' then TrimEnd(path[..|path| - 1]) else path
  }

  /** The labels of a path: the job is the label `job`, ahead of the rest. */
  function Grouping(job: string, labels: seq<Label>): seq<Label> {
    [("job", job)] + labels
  }

  lemma Appended<T>(was: seq<T>, a: seq<T>, b: seq<T>, c: seq<T>, d: seq<T>)
    ensures was + a + b + c + d == was + (a + b + (c + d))
  {
  }

  method AppendGroupingPair(path: TextBuffer, name: string, value: string)
    requires IsBytes(value)
    modifies path
    ensures path.text == old(path.text) + Pair((name, value))
  {
    hide Segment, Base64Url, IsBytes;
    ghost var was := path.text;
    path.Push('/');
    path.PushStr(name);
    if '/' in value || value == "." || value == ".." {
      path.PushStr("@base64/");
      path.PushStr(Base64Url(value));
      Appended(was, "/", name, "@base64/", Base64Url(value));
    } else {
      path.Push('/');
      var encoded := EncodePathSegment(value);
      path.PushStr(encoded);
      Appended(was, "/", name, "/", encoded);
    }
  }

  predicate PathChar(c: char) {
    'a' <= c <= 'z' || 'A' <= c <= 'Z' || '0' <= c <= '9' || c == '-' || c == '_' || c == '.' || c == '~'
  }

  lemma {:induction false} UnreservedIsKept(raw: string)
    requires IsBytes(raw) && forall i | 0 <= i < |raw| :: PathChar(raw[i])
    ensures Segment(raw) == raw
  {
    if raw != "" {
      var init, last := raw[..|raw| - 1], raw[|raw| - 1];
      UnreservedIsKept(init);
      assert EncodePathByte(last).Text() == [last];
      assert raw == init + [last];
    }
  }

  /**
   The form of a pair: in base64 exactly for a value with a slash and for a dot segment, else as a segment, which for a
   value of unreserved characters is the value itself.
   */
  lemma PairInForm(name: string, value: string)
    requires IsBytes(value)
    ensures var plain := '/' !in value && value != "." && value != "..";
            && (!plain ==> Pair((name, value)) == "/" + name + ("@base64/" + Base64Url(value)))
            && (plain ==> Pair((name, value)) == "/" + name + ("/" + Segment(value)))
            && (plain && (forall i | 0 <= i < |value| :: PathChar(value[i]))
                ==> Pair((name, value)) == "/" + name + ("/" + value))
  {
    hide Segment, Base64Url;
    if forall i | 0 <= i < |value| :: PathChar(value[i]) {
      UnreservedIsKept(value);
    }
  }

  lemma {:induction false} TailOneMore(labels: seq<Label>, pair: Label)
    requires AllBytes(labels) && IsBytes(pair.1)
    ensures AllBytes(labels + [pair]) && Tail(labels + [pair]) == Tail(labels) + Pair(pair)
  {
    hide Pair;
    if labels == [] {
      assert [pair][1..] == [] && Pair(pair) + "" == Pair(pair) && "" + Pair(pair) == Pair(pair);
      assert labels + [pair] == [pair];
    } else {
      TailOneMore(labels[1..], pair);
      assert (labels + [pair])[1..] == labels[1..] + [pair];
      Associative(Pair(labels[0]), Tail(labels[1..]), Pair(pair));
    }
  }

  method GroupingPath(basePath: string, job: string, labels: seq<Label>) returns (path: string)
    requires IsBytes(job) && AllBytes(labels)
    ensures AllBytes(Grouping(job, labels))
    ensures path == TrimEnd(basePath) + "/metrics" + Tail(Grouping(job, labels))
  {
    hide Pair, Tail;
    var buffer := new TextBuffer(TrimEnd(basePath));
    buffer.PushStr("/metrics");
    ghost var start := buffer.text;
    AppendGroupingPair(buffer, "job", job);
    NoTail();
    TailOneMore([], ("job", job));
    assert start + ("" + Pair(("job", job))) == start + Pair(("job", job));
    assert [] + [("job", job)] == Grouping(job, labels[..0]);
    for i := 0 to |labels|
      invariant buffer.text == start + Tail(Grouping(job, labels[..i]))
    {
      AppendGroupingPair(buffer, labels[i].0, labels[i].1);
      TailOneMore(Grouping(job, labels[..i]), labels[i]);
      assert Grouping(job, labels[..i]) + [labels[i]] == Grouping(job, labels[..i + 1]);
      Associative(start, Tail(Grouping(job, labels[..i])), Pair(labels[i]));
    }
    assert labels[..|labels|] == labels;
    path := buffer.text;
  }

  lemma NoTail()
    ensures Tail([]) == ""
  {
  }

  // ---- Reading a path back ----

  /** The parts of a text between slashes. */
  function Split(s: string): (parts: seq<string>)
    ensures |parts| > 0
    ensures forall i | 0 <= i < |parts| :: '/' !in parts[i]
  {
    if s == "" then [""]
    else
      var rest := Split(s[1..]);
      if s[0] == '/' then [""] + rest else [[s[0]] + rest[0]] + rest[1..]
  }

  function ReadName(part: string): (string, bool) {
    if |part| >= 7 && part[|part| - 7..] == "@base64" then (part[..|part| - 7], true) else (part, false)
  }

  function ReadPairs(parts: seq<string>): Option<seq<Label>> {
    if parts == [] then Some([])
    else if |parts| == 1 then None
    else
      var (name, encoded) := ReadName(parts[0]);
      match (if encoded then Base64Decode(parts[1]) else Some(parts[1]), ReadPairs(parts[2..]))
      case (Some(value), Some(rest)) => Some([(name, value)] + rest)
      case _ => None
  }

  /** A Pushgateway's reading of what follows `/metrics`: decode, split, and read the parts in pairs. */
  function ReadTail(tail: string): Option<seq<Label>> {
    match PercentDecode(tail)
    case Some(decoded) => if Split(decoded)[0] == "" then ReadPairs(Split(decoded)[1..]) else None
    case None => None
  }

  lemma {:induction false} SplitPrefix(a: string, rest: string)
    requires '/' !in a && (rest == "" || rest[0] == '/')
    ensures Split(a + rest) == [a] + Split(rest)[1..]
  {
    if a == "" {
      assert a + rest == rest;
      assert rest != "" ==> Split(rest)[0] == "";
      assert Split(rest) == [Split(rest)[0]] + Split(rest)[1..];
    } else {
      SplitPrefix(a[1..], rest);
      assert (a + rest)[1..] == a[1..] + rest;
      assert [a[0]] + a[1..] == a;
      assert ([a[1..]] + Split(rest)[1..])[1..] == Split(rest)[1..];
    }
  }

  lemma SplitSlash(rest: string)
    ensures Split("/" + rest) == [""] + Split(rest)
  {
    assert ("/" + rest)[1..] == rest;
  }

  lemma PairDecodes(pair: Label)
    requires ValidName(pair.0) && IsBytes(pair.1)
    ensures PercentDecode(Pair(pair)) == Some(DecodedPair(pair))
  {
    hide PercentDecode, Segment, Base64Url;
    var name := "/" + pair.0;
    if NeedsBase64(pair.1) {
      var text := Base64Url(pair.1);
      Base64Alphabet(pair.1);
      assert '%' !in name + ("@base64/" + text);
      Associative(name, "@base64/", text);
      DecodePlain(name + ("@base64/" + text));
    } else {
      DecodePlain(name + "/");
      SegmentRoundTrip(pair.1);
      DecodeConcat(name + "/", Segment(pair.1));
      Associative(name, "/", Segment(pair.1));
      Associative(name, "/", pair.1);
    }
  }

  lemma {:induction false} TailDecodes(labels: seq<Label>)
    requires ValidNames(labels) && AllBytes(labels)
    ensures PercentDecode(Tail(labels)) == Some(DecodedTail(labels))
  {
    hide Pair, DecodedPair, PercentDecode;
    if labels == [] {
      DecodePlain("");
    } else {
      PairDecodes(labels[0]);
      TailDecodes(labels[1..]);
      DecodeConcat(Pair(labels[0]), Tail(labels[1..]));
    }
  }

  function NamePart(pair: Label): string {
    pair.0 + if NeedsBase64(pair.1) then "@base64" else ""
  }

  function ValuePart(pair: Label): string
    requires IsBytes(pair.1)
  {
    if NeedsBase64(pair.1) then Base64Url(pair.1) else pair.1
  }

  lemma PartsOfPair(pair: Label)
    requires ValidName(pair.0) && IsBytes(pair.1)
    ensures DecodedPair(pair) == "/" + (NamePart(pair) + ("/" + ValuePart(pair)))
    ensures '/' !in NamePart(pair) && '/' !in ValuePart(pair)
    ensures ReadName(NamePart(pair)) == (pair.0, NeedsBase64(pair.1))
  {
    hide Base64Url, IsBytes;
    var part := NamePart(pair);
    if NeedsBase64(pair.1) {
      Base64Alphabet(pair.1);
      assert part[|part| - 7..] == "@base64" && part[..|part| - 7] == pair.0;
      Associative("/", pair.0, "@base64/" + ValuePart(pair));
      assert "@base64/" + ValuePart(pair) == "@base64" + ("/" + ValuePart(pair));
      Associative(pair.0, "@base64", "/" + ValuePart(pair));
    } else {
      assert part == pair.0;
      assert |part| >= 7 ==> part[|part| - 7..][0] == part[|part| - 7];
      Associative("/", pair.0, "/" + pair.1);
    }
  }

  /** Main result for the parts: a decoded tail splits into exactly the name and value parts of its labels. */
  lemma {:induction false} TailReads(labels: seq<Label>)
    requires ValidNames(labels) && AllBytes(labels)
    ensures Split(DecodedTail(labels))[0] == ""
    ensures ReadPairs(Split(DecodedTail(labels))[1..]) == Some(labels)
    decreases |labels|
  {
    hide Base64Url, Base64Decode, NamePart, ValuePart, DecodedPair, ReadName, IsBytes, ValidName, NeedsBase64;
    if labels != [] {
      var pair, rest := labels[0], DecodedTail(labels[1..]);
      TailReads(labels[1..]);
      TailStarts(labels[1..]);
      PartsOfPair(pair);
      ValueReads(pair);
      var name, value := NamePart(pair), ValuePart(pair);
      PairThenRest(name, value, rest);
      assert Split(DecodedTail(labels)) == [""] + ([name] + ([value] + Split(rest)[1..]));
      var parts := [name] + ([value] + Split(rest)[1..]);
      assert parts[2..] == Split(rest)[1..];
      assert labels == [pair] + labels[1..];
    }
  }

  lemma ValueReads(pair: Label)
    requires IsBytes(pair.1)
    ensures (if NeedsBase64(pair.1) then Base64Decode(ValuePart(pair)) else Some(ValuePart(pair))) == Some(pair.1)
  {
    Base64RoundTrip(pair.1);
  }

  lemma TailStarts(labels: seq<Label>)
    requires AllBytes(labels)
    ensures DecodedTail(labels) == "" || DecodedTail(labels)[0] == '/'
    ensures Tail(labels) == "" || Tail(labels)[0] == '/'
  {
  }

  lemma PairThenRest(name: string, value: string, rest: string)
    requires '/' !in name && '/' !in value && (rest == "" || rest[0] == '/')
    ensures Split("/" + (name + ("/" + value)) + rest) == [""] + ([name] + ([value] + Split(rest)[1..]))
  {
    hide Split;
    var tail := "/" + (value + rest);
    assert "/" + (name + ("/" + value)) + rest == "/" + (name + tail);
    SplitSlash(name + tail);
    SplitPrefix(name, tail);
    SplitSlash(value + rest);
    SplitPrefix(value, rest);
    assert ([""] + Split(value + rest))[1..] == Split(value + rest);
  }

  /** Main result: the path after `/metrics` reads back as exactly the job and the labels. */
  lemma PathRoundTrip(job: string, labels: seq<Label>)
    requires ValidNames(labels) && IsBytes(job) && AllBytes(labels)
    ensures AllBytes(Grouping(job, labels)) && ReadTail(Tail(Grouping(job, labels))) == Some([("job", job)] + labels)
  {
    var all := Grouping(job, labels);
    TailDecodes(all);
    TailReads(all);
  }

  /** Different groupings never share a path. */
  lemma PathsAreDistinct(job: string, labels: seq<Label>, otherJob: string, otherLabels: seq<Label>)
    requires ValidNames(labels) && IsBytes(job) && AllBytes(labels)
    requires ValidNames(otherLabels) && IsBytes(otherJob) && AllBytes(otherLabels)
    ensures AllBytes(Grouping(job, labels)) && AllBytes(Grouping(otherJob, otherLabels))
    ensures Tail(Grouping(job, labels)) == Tail(Grouping(otherJob, otherLabels))
            <==> job == otherJob && labels == otherLabels
  {
    PathRoundTrip(job, labels);
    PathRoundTrip(otherJob, otherLabels);
    assert ([("job", job)] + labels)[0] == ("job", job) && ([("job", otherJob)] + otherLabels)[0] == ("job", otherJob);
    assert ([("job", job)] + labels)[1..] == labels && ([("job", otherJob)] + otherLabels)[1..] == otherLabels;
  }

  // ---- Dot segments (section 5.2.4 of RFC 3986) ----

  function SlashAt(s: string): (i: nat)
    ensures i <= |s| && '/' !in s[..i] && (i < |s| ==> s[i] == '/')
  {
    if s == "" || s[0] == '/' then 0
    else
      assert forall i: nat | i < |s| :: s[..i + 1] == [s[0]] + s[1..][..i];
      1 + SlashAt(s[1..])
  }

  function DropLastSegment(output: string): (rest: string)
    ensures |rest| <= |output|
  {
    if output == "" then ""
    else if output[|output| - 1] == '/' then output[..|output| - 1]
    else DropLastSegment(output[..|output| - 1])
  }

  /** The first segment of the input buffer, with its leading slash if it has one. */
  function FirstSegment(input: string): (n: nat)
    requires input != ""
    ensures 0 < n <= |input|
  {
    if input[0] == '/' then 1 + SlashAt(input[1..]) else SlashAt(input)
  }

  /** `remove_dot_segments`, on its two buffers. */
  function RemoveDots(input: string, output: string): string
    decreases |input|
  {
    if input == "" then output
    else if "../" <= input then RemoveDots(input[3..], output)
    else if "./" <= input then RemoveDots(input[2..], output)
    else if "/./" <= input then RemoveDots(input[2..], output)
    else if input == "/." then RemoveDots("/", output)
    else if "/../" <= input then RemoveDots(input[3..], DropLastSegment(output))
    else if input == "/.." then RemoveDots("/", DropLastSegment(output))
    else if input == "." || input == ".." then RemoveDots("", output)
    else RemoveDots(input[FirstSegment(input)..], output + input[..FirstSegment(input)])
  }

  predicate IsDot(part: string) {
    part == "." || part == ".."
  }

  predicate NoDots(path: string) {
    forall i | 0 <= i < |Split(path)| :: !IsDot(Split(path)[i])
  }

  /** The first part of a path that starts with a part, or with a slash and a part. */
  lemma LeadingPart(part: string, rest: string)
    requires '/' !in part && (rest == "" || rest[0] == '/')
    ensures NoDots(part + rest) <==> !IsDot(part) && NoDots(rest)
    ensures NoDots("/" + part + rest) <==> !IsDot(part) && NoDots(rest)
  {
    hide IsDot;
    SplitPrefix(part, rest);
    SplitSlash(part + rest);
    assert "/" + part + rest == "/" + (part + rest);
    SplitPrefix("", rest);
    assert "" + rest == rest;
    var parts := Split(rest);
    NotDot();
    assert parts == [""] + parts[1..];
    PrependPart(part, parts[1..]);
    PrependPart("", parts[1..]);
    PrependPart("", [part] + parts[1..]);
  }

  predicate NoneDot(parts: seq<string>) {
    forall i | 0 <= i < |parts| :: !IsDot(parts[i])
  }

  lemma NotDot()
    ensures !IsDot("")
  {
  }

  lemma PrependPart(part: string, parts: seq<string>)
    ensures NoneDot([part] + parts) <==> !IsDot(part) && NoneDot(parts)
  {
    hide IsDot;
    assert ([part] + parts)[0] == part;
    assert forall i | 0 <= i < |parts| :: parts[i] == ([part] + parts)[i + 1];
  }

  /** Removing dot segments leaves a text alone when it has none, and shortens it when it has one. */
  lemma {:induction false} RemoveDotsEffect(input: string, output: string)
    ensures |RemoveDots(input, output)| <= |input| + |output|
    ensures NoDots(input) ==> RemoveDots(input, output) == output + input
    ensures !NoDots(input) ==> |RemoveDots(input, output)| < |input| + |output|
    decreases |input|
  {
    hide NoDots, Split;
    if input == "" {
      NoDotsOfEmpty();
    } else if HasLeadingDot(input) {
      LeadingDotIsDot(input);
      RemoveLeadingDot(input, output);
    } else {
      var n := FirstSegment(input);
      FirstSegmentIsPart(input);
      RemoveDotsEffect(input[n..], output + input[..n]);
      assert input == input[..n] + input[n..];
      Associative(output, input[..n], input[n..]);
    }
  }

  lemma NoDotsOfEmpty()
    ensures NoDots("")
  {
  }

  predicate HasLeadingDot(input: string) {
    || "../" <= input || "./" <= input || "/./" <= input || input == "/." || "/../" <= input
    || input == "/.." || input == "." || input == ".."
  }

  lemma LeadingDotIsDot(input: string)
    requires HasLeadingDot(input)
    ensures !NoDots(input)
  {
    hide NoDots, Split;
    if "../" <= input || input == ".." {
      LeadingPart("..", input[2..]);
      assert input == ".." + input[2..];
    } else if "./" <= input || input == "." {
      LeadingPart(".", input[1..]);
      assert input == "." + input[1..];
    } else if "/../" <= input || input == "/.." {
      LeadingPart("..", input[3..]);
      assert input == "/" + ".." + input[3..];
    } else {
      LeadingPart(".", input[2..]);
      assert input == "/" + "." + input[2..];
    }
  }

  lemma RemoveLeadingDot(input: string, output: string)
    requires HasLeadingDot(input)
    ensures |RemoveDots(input, output)| < |input| + |output|
    decreases |input|, 0
  {
    if "../" <= input {
      RemoveNeverGrows(input[3..], output);
    } else if "./" <= input || "/./" <= input {
      RemoveNeverGrows(input[2..], output);
    } else if "/../" <= input {
      RemoveNeverGrows(input[3..], DropLastSegment(output));
    } else if input == "/." || input == "/.." {
      RemoveNeverGrows("/", if input == "/." then output else DropLastSegment(output));
    }
  }

  lemma {:induction false} RemoveNeverGrows(input: string, output: string)
    ensures |RemoveDots(input, output)| <= |input| + |output|
    decreases |input|, 1
  {
    if input == "" {
    } else if HasLeadingDot(input) {
      RemoveLeadingDot(input, output);
    } else {
      var n := FirstSegment(input);
      RemoveNeverGrows(input[n..], output + input[..n]);
    }
  }

  lemma FirstSegmentIsPart(input: string)
    requires input != "" && !HasLeadingDot(input)
    ensures NoDots(input) <==> NoDots(input[FirstSegment(input)..])
  {
    hide NoDots, Split;
    var n := FirstSegment(input);
    var rest := input[n..];
    if input[0] == '/' {
      var part := input[1..n];
      assert part == input[1..][..n - 1];
      LeadingPart(part, rest);
      assert input == "/" + part + rest;
    } else {
      LeadingPart(input[..n], rest);
      assert input == input[..n] + rest;
    }
  }

  lemma Regroup(c: char, parts: seq<string>, more: seq<string>)
    requires parts != []
    ensures (if c == '/' then [""] + (parts + more) else [[c] + (parts + more)[0]] + (parts + more)[1..])
            == (if c == '/' then [""] + parts else [[c] + parts[0]] + parts[1..]) + more
  {
  }

  lemma {:induction false} SplitJoin(a: string, b: string)
    ensures Split(a + "/" + b) == Split(a) + Split(b)
  {
    if a == "" {
      assert a + "/" + b == "/" + b;
      SplitSlash(b);
    } else {
      var rest := a[1..] + "/" + b;
      SplitJoin(a[1..], b);
      assert a + "/" + b == [a[0]] + rest;
      assert (a + "/" + b)[1..] == rest;
      Regroup(a[0], Split(a[1..]), Split(b));
    }
  }

  lemma NoDotsOfJoin(a: string, b: string)
    ensures NoDots(a + "/" + b) <==> NoDots(a) && NoDots(b)
  {
    hide Split, IsDot;
    SplitJoin(a, b);
    var parts := Split(a) + Split(b);
    assert forall i | 0 <= i < |Split(a)| :: Split(a)[i] == parts[i];
    assert forall i | 0 <= i < |Split(b)| :: Split(b)[i] == parts[|Split(a)| + i];
  }

  lemma {:induction false} TrimKeepsDots(base: string)
    ensures NoDots(TrimEnd(base)) <==> NoDots(base)
  {
    hide NoDots;
    if base != "" && base[|base| - 1] == '/' {
      var shorter := base[..|base| - 1];
      TrimKeepsDots(shorter);
      NoDotsOfJoin(shorter, "");
      NoDotsOfEmpty();
      assert base == shorter + "/" + "";
    }
  }

  /** The value's part of a path as it is written. */
  function ValueText(pair: Label): string
    requires IsBytes(pair.1)
  {
    if NeedsBase64(pair.1) then Base64Url(pair.1) else Segment(pair.1)
  }

  lemma {:induction false} SegmentAlphabet(raw: string)
    requires IsBytes(raw)
    ensures forall i | 0 <= i < |Segment(raw)| :: IsUnreserved(Segment(raw)[i]) || Segment(raw)[i] == '%'
  {
    hide EncodePathByte, PercentDecode, IsUnreserved;
    if raw != "" {
      SegmentAlphabet(raw[..|raw| - 1]);
    }
  }

  /** Neither a slash nor a dot segment can come out of a value. */
  lemma ValueTextIsPlain(pair: Label)
    requires IsBytes(pair.1)
    ensures '/' !in ValueText(pair) && !IsDot(ValueText(pair))
    ensures forall i | 0 <= i < |ValueText(pair)| :: IsUnreserved(ValueText(pair)[i]) || ValueText(pair)[i] == '%'
  {
    hide Segment, Base64Url, PercentDecode;
    var text := ValueText(pair);
    if NeedsBase64(pair.1) {
      Base64Alphabet(pair.1);
      assert IsDot(text) ==> Digit64(text[0]).Some?;
    } else {
      SegmentAlphabet(pair.1);
      SegmentRoundTrip(pair.1);
      if IsDot(text) {
        DecodePlain(text);
      }
    }
  }

  lemma PairIsParts(pair: Label)
    requires IsBytes(pair.1)
    ensures Pair(pair) == "/" + NamePart(pair) + ("/" + ValueText(pair))
  {
    hide Segment, Base64Url;
    if NeedsBase64(pair.1) {
      assert "@base64/" + ValueText(pair) == "@base64" + ("/" + ValueText(pair));
      Appended("", "/", pair.0, "@base64", "/" + ValueText(pair));
      Associative("/" + pair.0, "@base64", "/" + ValueText(pair));
      Associative("/", pair.0, "@base64");
    } else {
      assert pair.0 + "" == pair.0;
    }
  }

  lemma NamePartIsPlain(pair: Label)
    requires ValidName(pair.0)
    ensures '/' !in NamePart(pair) && !IsDot(NamePart(pair))
    ensures forall i | 0 <= i < |NamePart(pair)| :: IsUnreserved(NamePart(pair)[i]) || NamePart(pair)[i] == '@'
  {
    var part := NamePart(pair);
    assert part[0] == pair.0[0];
    assert forall i | 0 <= i < |pair.0| :: part[i] == pair.0[i];
  }

  lemma {:induction false} TailHasNoDots(labels: seq<Label>)
    requires ValidNames(labels) && AllBytes(labels)
    ensures NoDots(Tail(labels))
  {
    hide NoDots, Pair, NamePart, ValueText, IsDot, ValidName, IsBytes;
    if labels == [] {
      NoDotsOfEmpty();
    } else {
      var name, value, rest := NamePart(labels[0]), ValueText(labels[0]), Tail(labels[1..]);
      TailHasNoDots(labels[1..]);
      TailStarts(labels[1..]);
      NamePartIsPlain(labels[0]);
      ValueTextIsPlain(labels[0]);
      PairIsParts(labels[0]);
      LeadingPart(value, rest);
      LeadingPart(name, "/" + value + rest);
      assert "/" + name + ("/" + value) + rest == "/" + name + ("/" + value + rest);
    }
  }

  /** Main result: normalising a grouping path changes it exactly when the base path has a dot segment. */
  lemma DotRemovalKeepsPath(base: string, job: string, labels: seq<Label>)
    requires ValidNames(labels) && IsBytes(job) && AllBytes(labels) && AllBytes(Grouping(job, labels))
    ensures var path := TrimEnd(base) + "/metrics" + Tail(Grouping(job, labels));
            RemoveDots(path, "") == path <==> NoDots(base)
  {
    hide NoDots, Tail, RemoveDots, TrimEnd;
    var start, tail := TrimEnd(base), Tail(Grouping(job, labels));
    var path := start + "/metrics" + tail;
    TrimKeepsDots(base);
    TailHasNoDots(Grouping(job, labels));
    TailStarts(Grouping(job, labels));
    LeadingPart("metrics", tail);
    NoDotsOfJoin(start, "metrics" + tail);
    assert path == start + "/" + ("metrics" + tail);
    RemoveDotsEffect(path, "");
    assert "" + path == path;
  }

  /** Nothing in a tail can end the path of a URL or start another component of it. */
  lemma {:induction false} TailIsPathText(labels: seq<Label>)
    requires ValidNames(labels) && AllBytes(labels)
    ensures forall c <- Tail(labels) :: IsUnreserved(c) || c == '%' || c == '/' || c == '@'
  {
    hide NamePart, ValueText, Pair, IsUnreserved;
    if labels != [] {
      TailIsPathText(labels[1..]);
      NamePartIsPlain(labels[0]);
      ValueTextIsPlain(labels[0]);
      PairIsParts(labels[0]);
    }
  }

  // ---- Validation ----

  datatype Invalid =
    EmptyJob | BadName(name: string) | Reserved(name: string) | EmptyValue(name: string) | Duplicate(name: string)

  predicate IsReserved(name: string) {
    name == "job" || "__" <= name
  }

  predicate ValidLabel(pair: Label) {
    ValidName(pair.0) && !IsReserved(pair.0) && pair.1 != ""
  }

  method ValidateLabel(pair: Label) returns (result: Result<(), Invalid>)
    ensures result.Ok? <==> ValidLabel(pair)
    ensures result.Ok? <==> ValidName(pair.0) && pair.0 != "job" && !("__" <= pair.0) && pair.1 != ""
    ensures result == Err(BadName(pair.0)) <==> !ValidName(pair.0)
    ensures result == Err(Reserved(pair.0)) <==> ValidName(pair.0) && (pair.0 == "job" || "__" <= pair.0)
    ensures result.Err? ==> result.error in {BadName(pair.0), Reserved(pair.0), EmptyValue(pair.0)}
  {
    var ok := IsValidName(pair.0);
    if !ok {
      return Err(BadName(pair.0));
    }
    if IsReserved(pair.0) {
      return Err(Reserved(pair.0));
    }
    if pair.1 == "" {
      return Err(EmptyValue(pair.0));
    }
    result := Ok(());
  }

  method ValidateLabels(labels: seq<Label>) returns (result: Result<(), Invalid>)
    ensures result.Ok? <==> (forall pair <- labels :: ValidLabel(pair)) && Distinct(labels)
    ensures result.Err? && result.error.Duplicate? ==> forall pair <- labels :: ValidLabel(pair)
  {
    for i := 0 to |labels|
      invariant forall k | 0 <= k < i :: ValidLabel(labels[k])
    {
      var checked := ValidateLabel(labels[i]);
      if checked.Err? {
        return Err(checked.error);
      }
    }
    var at := FirstDuplicate(labels);
    result := if at == |labels| then Ok(()) else Err(Duplicate(labels[at].0));
  }

  /** Labels that pass validation meet what the round trip needs, and the path never has an empty value. */
  lemma ValidatedLabelsRoundTrip(job: string, labels: seq<Label>)
    requires job != "" && (forall pair <- labels :: ValidLabel(pair)) && Distinct(labels)
    requires IsBytes(job) && AllBytes(labels)
    ensures AllBytes(Grouping(job, labels)) && ReadTail(Tail(Grouping(job, labels))) == Some(Grouping(job, labels))
    ensures Distinct(Grouping(job, labels))
  {
    assert forall i | 0 <= i < |labels| :: labels[i] in labels;
    PathRoundTrip(job, labels);
    assert forall i | 0 < i < |Grouping(job, labels)| :: Grouping(job, labels)[i] in labels;
    assert forall i | 0 < i < |Grouping(job, labels)| :: Grouping(job, labels)[i] == labels[i - 1];
  }
}
