/**
 The argv splitter of src/args.rs. A boundary scan marks where each word of argv belongs; a second loop
 acts on the marks, takes out this program's own options and forwards the rest to libiperf.
 */
module Args {
  import opened Texts
  import opened Wrappers

  /** What native getopt says about a word; it needs the next word only for an operand. */
  datatype Kind = NoOperand | NeedsOperand | Help | Version | Unknown | Malformed

  type Classifier = string -> Kind

  /** Whether an option's own parser accepts a value. */
  type Validator = (string, string) -> bool

  /** An option and its value; a bare flag has none. */
  type Setting = (string, Option<string>)

  datatype Error = MissingProgram | MalformedWord | MissingValue | InvalidValue

  // ---- Words ----

  /** `split_long_value`: `--key=value` split at its first `=`. */
  function SplitLongValue(word: string): Option<(string, string)> {
    var i := IndexOf(word, '=');
    if i < |word| && "--" <= word[..i] then Some((word[..i], word[i + 1..])) else None
  }

  /** The options this program takes for itself: whether each needs a value. */
  function WrapperOption(key: string): Option<bool> {
    if key in ["--push.url", "--push.job", "--push.label", "--push.timeout", "--push.retries", "--push.user-agent",
               "--push.interval", "--metrics.file", "--metrics.format", "--metrics.label",
                "--metrics.prefix"] then Some(true)
    else if key == "--push.delete-on-exit" then Some(false)
    else None
  }

  function KeyOf(word: string): string {
    match SplitLongValue(word) case Some((key, _)) => key case None => word
  }

  function InlineValue(word: string): Option<string> {
    match SplitLongValue(word) case Some((_, value)) => Some(value) case None => None
  }

  predicate IsWrapper(word: string) {
    WrapperOption(KeyOf(word)).Some?
  }

  predicate TakesNext(word: string) {
    WrapperOption(KeyOf(word)) == Some(true) && InlineValue(word).None?
  }

  // ---- The meaning of an argv ----

  /** One stretch of argv. `Verbatim` is everything from `--`, or from the first word upstream rejects. */
  datatype Token = Own(words: seq<string>) | Upstream(words: seq<string>) | Verbatim(words: seq<string>)

  datatype Outcome = Complete | HelpAsked | VersionAsked | Bad

  datatype Reading = Reading(tokens: seq<Token>, outcome: Outcome) {
    function After(token: Token): Reading {
      Reading([token] + tokens, outcome)
    }
  }

  predicate WellShaped(tokens: seq<Token>) {
    forall i | 0 <= i < |tokens| :: tokens[i].words != []
  }

  function Tokenise(classify: Classifier, args: seq<string>): (reading: Reading)
    ensures WellShaped(reading.tokens)
  {
    hide IsWrapper, TakesNext;
    if args == [] then Reading([], Complete)
    else
      var word := args[0];
      if word == "--" then Reading([Verbatim(args)], Complete)
      else if IsWrapper(word) then
        if TakesNext(word) && |args| > 1 then Tokenise(classify, args[2..]).After(Own(args[..2]))
        else Tokenise(classify, args[1..]).After(Own([word]))
      else match classify(word)
        case Malformed => Reading([], Bad)
        case Help => Reading([], HelpAsked)
        case Version => Reading([], VersionAsked)
        case Unknown => Reading([Verbatim(args)], Complete)
        case NoOperand => Tokenise(classify, args[1..]).After(Upstream([word]))
        case NeedsOperand =>
          if |args| > 1 then Tokenise(classify, args[2..]).After(Upstream(args[..2]))
          else Reading([Verbatim(args)], Complete)
  }

  function Words(tokens: seq<Token>): seq<string> {
    if tokens == [] then [] else tokens[0].words + Words(tokens[1..])
  }

  /** What libiperf is given: everything but this program's own options and their separate values. */
  function Forwarded(tokens: seq<Token>): seq<string> {
    Words(Foreign(tokens))
  }

  function Foreign(tokens: seq<Token>): seq<Token> {
    if tokens == [] then []
    else (if tokens[0].Own? then [] else [tokens[0]]) + Foreign(tokens[1..])
  }

  /** An own option as key and value; `None` when a value it needs is missing. */
  function OptionOf(words: seq<string>): Option<Setting>
    requires words != []
  {
    if TakesNext(words[0]) then (if |words| > 1 then Some((KeyOf(words[0]), Some(words[1]))) else None)
    else Some((KeyOf(words[0]), InlineValue(words[0])))
  }

  /** The options set, in order; the last one for a key is the one in effect. */
  function Options(tokens: seq<Token>): seq<Setting>
    requires WellShaped(tokens)
  {
    if tokens == [] then []
    else
      var rest := Options(tokens[1..]);
      if tokens[0].Own? && OptionOf(tokens[0].words).Some? then [OptionOf(tokens[0].words).value] + rest else rest
  }

  /** What is wrong with an own option, if anything. */
  function Fault(valid: Validator, token: Token): Option<Error>
    requires token.words != []
  {
    if !token.Own? then None
    else match OptionOf(token.words)
      case None => Some(MissingValue)
      case Some((key, Some(value))) => if valid(key, value) then None else Some(InvalidValue)
      case Some((_, None)) => None
  }

  /** The first fault, in argv order. */
  function FirstFault(valid: Validator, tokens: seq<Token>): Option<Error>
    requires WellShaped(tokens)
  {
    if tokens == [] then None
    else if Fault(valid, tokens[0]).Some? then Fault(valid, tokens[0])
    else FirstFault(valid, tokens[1..])
  }

  // ---- What the reading guarantees ----

  /** Main result: nothing of argv is lost, repeated or moved between its tokens. */
  lemma {:induction false} WordsAreTheArgv(classify: Classifier, args: seq<string>)
    requires Tokenise(classify, args).outcome == Complete
    ensures Words(Tokenise(classify, args).tokens) == args
    decreases |args|
  {
    hide IsWrapper, TakesNext;
    if args != [] {
      var first := Tokenise(classify, args).tokens[0];
      var rest := args[|first.words|..];
      assert args == first.words + rest;
      if !first.Verbatim? {
        WordsAreTheArgv(classify, rest);
      }
    }
  }

  /** Main result: reading the forwarded argv again finds the same tokens and no option of this program. */
  lemma {:induction false} ForwardedReadsClean(classify: Classifier, args: seq<string>)
    requires Tokenise(classify, args).outcome == Complete
    ensures Tokenise(classify, Forwarded(Tokenise(classify, args).tokens))
            == Reading(Foreign(Tokenise(classify, args).tokens), Complete)
    decreases |args|
  {
    hide IsWrapper, TakesNext;
    if args != [] {
      var tokens := Tokenise(classify, args).tokens;
      var first := tokens[0];
      if first.Verbatim? {
        assert Foreign(tokens) == tokens && Words(tokens) == args;
      } else {
        var rest := args[|first.words|..];
        ForwardedReadsClean(classify, rest);
        assert tokens[1..] == Tokenise(classify, rest).tokens;
        if first.Own? {
          assert Foreign(tokens) == Foreign(tokens[1..]);
        } else {
          var again := first.words + Forwarded(tokens[1..]);
          assert Foreign(tokens) == [first] + Foreign(tokens[1..]);
          assert Forwarded(tokens) == again;
          assert again[0] == args[0];
          assert again[..|first.words|] == first.words && again[|first.words|..] == Forwarded(tokens[1..]);
        }
      }
    }
  }

  // ---- The boundary scan ----

  function Ones(n: nat): (s: seq<nat>)
    ensures |s| == n && forall i | 0 <= i < n :: s[i] == 1
  {
    seq(n, i => 1)
  }

  /** The mark of each word: 0 starts an own option, `n` starts `n` forwarded words, the rest stay 1. */
  function SpanOf(token: Token): seq<nat>
    requires token.words != []
  {
    match token
    case Own(words) => [0] + Ones(|words| - 1)
    case Upstream(words) => [|words|] + Ones(|words| - 1)
    case Verbatim(words) => Ones(|words|)
  }

  function Spans(tokens: seq<Token>): seq<nat>
    requires WellShaped(tokens)
  {
    if tokens == [] then [] else Spans(tokens[..|tokens| - 1]) + SpanOf(tokens[|tokens| - 1])
  }

  /** The marks while the scan stands at `index`: the tokens so far, then the initial ones. */
  ghost predicate Marked(spans: seq<nat>, done: seq<Token>, index: nat) {
    && index <= |spans| && WellShaped(done)
    && spans[..index] == Spans(done) && spans[index..] == Ones(|spans| - index)
  }

  /** The positions at which tokens start. */
  function Starts(tokens: seq<Token>, offset: nat): seq<nat> {
    if tokens == [] then []
    else Starts(tokens[..|tokens| - 1], offset) + [offset + |Words(tokens[..|tokens| - 1])|]
  }

  lemma {:induction false} WordsOfConcat(a: seq<Token>, b: seq<Token>)
    ensures Words(a + b) == Words(a) + Words(b)
  {
    if a == [] {
      assert a + b == b;
    } else {
      WordsOfConcat(a[1..], b);
      assert (a + b)[1..] == a[1..] + b;
      Associative(a[0].words, Words(a[1..]), Words(b));
    }
  }

  lemma WordsOfOneMore(done: seq<Token>, token: Token)
    ensures Words(done + [token]) == Words(done) + token.words
  {
    WordsOfConcat(done, [token]);
    assert Words([token]) == token.words + Words([token][1..]) == token.words;
  }

  lemma Regroup<T>(a: seq<T>, x: T, b: seq<T>)
    ensures a + ([x] + b) == (a + [x]) + b
  {
  }

  /** A loop that has read `done` and stands at `index` of `args`. */
  ghost predicate Reached(classify: Classifier, args: seq<string>, done: seq<Token>, index: nat) {
    && index <= |args| && WellShaped(done)
    && Words(done) == args[..index]
    && var rest := Tokenise(classify, args[index..]);
       Tokenise(classify, args) == Reading(done + rest.tokens, rest.outcome)
  }

  lemma ReachedStart(classify: Classifier, args: seq<string>)
    ensures Reached(classify, args, [], 0)
  {
    assert args[0..] == args;
    assert [] + Tokenise(classify, args).tokens == Tokenise(classify, args).tokens;
  }

  /** Reading one more token moves the loop past its words. */
  lemma ReachedNext(classify: Classifier, args: seq<string>, done: seq<Token>, index: nat, token: Token)
    requires Reached(classify, args, done, index) && index < |args|
    requires token.words != [] && index + |token.words| <= |args| && token.words == args[index..index + |token.words|]
    requires Tokenise(classify, args[index..]) == Tokenise(classify, args[index + |token.words|..]).After(token)
    ensures Reached(classify, args, done + [token], index + |token.words|)
    ensures Starts(done + [token], 0) == Starts(done, 0) + [index]
  {
    hide Tokenise, SpanOf;
    var next := index + |token.words|;
    WordsOfOneMore(done, token);
    assert args[..index] + token.words == args[..next];
    Regroup(done, token, Tokenise(classify, args[next..]).tokens);
    assert (done + [token])[..|done|] == done;
  }

  /** The token a scan finds at the head of `rest`, when it goes on after it. */
  lemma HeadToken(classify: Classifier, args: seq<string>, index: nat) returns (token: Token)
    requires index < |args| && args[index] != "--"
    requires || IsWrapper(args[index]) || classify(args[index]).NoOperand?
             || (classify(args[index]).NeedsOperand? && index + 1 < |args|)
    ensures token.words != [] && index + |token.words| <= |args| && token.words == args[index..index + |token.words|]
    ensures Tokenise(classify, args[index..]) == Tokenise(classify, args[index + |token.words|..]).After(token)
    ensures token.Own? <==> IsWrapper(args[index])
    ensures !token.Verbatim?
    ensures var wantsNext :=
              if IsWrapper(args[index]) then TakesNext(args[index]) else classify(args[index]).NeedsOperand?;
            |token.words| == if wantsNext && index + 1 < |args| then 2 else 1
  {
    hide WrapperOption, SplitLongValue, KeyOf, InlineValue;
    var rest := args[index..];
    token := Tokenise(classify, rest).tokens[0];
    assert rest[..1] == args[index..index + 1];
    assert rest[1..] == args[index + 1..];
    if |rest| > 1 {
      assert rest[..2] == args[index..index + 2];
      assert rest[2..] == args[index + 2..];
    }
  }

  /** `argument_boundaries`: marks in place, and whether help or version was asked for first. */
  method ArgumentBoundaries(classify: Classifier, args: seq<string>)
    returns (spans: array<nat>, outcome: Outcome, ghost visits: seq<nat>)
    ensures fresh(spans) && spans.Length == |args|
    ensures outcome == Tokenise(classify, args).outcome
    ensures outcome == Complete ==> spans[..] == Spans(Tokenise(classify, args).tokens)
    ensures outcome == Complete ==> visits == Starts(Tokenise(classify, args).tokens, 0)
  {
    hide Tokenise, Reached, SpanOf, Spans, Starts, Marked, IsWrapper, TakesNext, Ones;
    spans := new nat[|args|](_ => 1);
    visits := [];
    var index := 0;
    ghost var done: seq<Token> := [];
    ReachedStart(classify, args);
    NothingRead();
    while index < |args|
      invariant index <= |args| && WellShaped(done)
      invariant Reached(classify, args, done, index)
      invariant Marked(spans[..], done, index)
      invariant visits == Starts(done, 0)
    {
      var word := args[index];
      visits := visits + [index];
      if word == "--" {
        ReadVerbatim(classify, args, done, index, spans[..]);
        return spans, Complete, visits;
      }
      if IsWrapper(word) {
        ghost var token := HeadToken(classify, args, index);
        ReachedNext(classify, args, done, index, token);
        ghost var before := spans[..];
        spans[index] := 0;
        MarkToken(before, done, index, token);
        done := done + [token];
        index := index + if TakesNext(word) && index + 1 < |args| then 2 else 1;
      } else {
        match classify(word)
        case Malformed =>
          ReadStop(classify, args, done, index);
          return spans, Bad, visits;
        case Help =>
          ReadStop(classify, args, done, index);
          return spans, HelpAsked, visits;
        case Version =>
          ReadStop(classify, args, done, index);
          return spans, VersionAsked, visits;
        case Unknown =>
          UnmarkedIsOne(spans[..], done, index);
          spans[index] := 1;
          ReadVerbatim(classify, args, done, index, spans[..]);
          return spans, Complete, visits;
        case NoOperand =>
          ghost var token := HeadToken(classify, args, index);
          ReachedNext(classify, args, done, index, token);
          ghost var before := spans[..];
          spans[index] := 1;
          MarkToken(before, done, index, token);
          done := done + [token];
          index := index + 1;
        case NeedsOperand =>
          if index + 1 >= |args| {
            UnmarkedIsOne(spans[..], done, index);
            spans[index] := 1;
            ReadVerbatim(classify, args, done, index, spans[..]);
            return spans, Complete, visits;
          }
          ghost var token := HeadToken(classify, args, index);
          ReachedNext(classify, args, done, index, token);
          ghost var before := spans[..];
          spans[index] := 2;
          MarkToken(before, done, index, token);
          done := done + [token];
          index := index + 2;
      }
    }
    outcome := Complete;
    ReadAll(classify, args, done, index, spans[..]);
  }

  lemma NothingRead()
    ensures Starts([], 0) == [] && WellShaped([])
    ensures forall spans: seq<nat> | spans == Ones(|spans|) :: Marked(spans, [], 0)
  {
  }

  lemma ReadAll(classify: Classifier, args: seq<string>, done: seq<Token>, index: nat, spans: seq<nat>)
    requires Reached(classify, args, done, index) && index == |args| == |spans| && Marked(spans, done, index)
    ensures Tokenise(classify, args) == Reading(done, Complete) && spans == Spans(done)
  {
    assert done + [] == done;
    assert spans[..index] == spans;
  }

  lemma ReadStop(classify: Classifier, args: seq<string>, done: seq<Token>, index: nat)
    requires Reached(classify, args, done, index) && index < |args| && args[index] != "--" && !IsWrapper(args[index])
    ensures classify(args[index]).Malformed? ==> Tokenise(classify, args).outcome == Bad
    ensures classify(args[index]).Help? ==> Tokenise(classify, args).outcome == HelpAsked
    ensures classify(args[index]).Version? ==> Tokenise(classify, args).outcome == VersionAsked
  {
  }

  lemma ReadVerbatim(classify: Classifier, args: seq<string>, done: seq<Token>, index: nat, spans: seq<nat>)
    requires Reached(classify, args, done, index) && index < |args| == |spans|
    requires || args[index] == "--"
             || (!IsWrapper(args[index]) && classify(args[index]).Unknown?)
             || (!IsWrapper(args[index]) && classify(args[index]).NeedsOperand? && index + 1 == |args|)
    requires Marked(spans, done, index)
    ensures var tokens := done + [Verbatim(args[index..])];
            && Tokenise(classify, args) == Reading(tokens, Complete)
            && spans == Spans(tokens) && Starts(tokens, 0) == Starts(done, 0) + [index]
  {
    var tokens := done + [Verbatim(args[index..])];
    assert tokens[..|done|] == done;
    assert spans == spans[..index] + spans[index..];
  }

  lemma MarkToken(before: seq<nat>, done: seq<Token>, index: nat, token: Token)
    requires Marked(before, done, index) && index < |before| && index + |token.words| <= |before|
    requires token.words != [] && !token.Verbatim?
    ensures WellShaped(done + [token])
    ensures Marked(before[index := if token.Own? then 0 else |token.words|], done + [token], index + |token.words|)
  {
    hide Spans, SpanOf;
    var after := before[index := if token.Own? then 0 else |token.words|];
    var next := index + |token.words|;
    SpansOneMore(done, token);
    assert after == before[..index] + [after[index]] + before[index + 1..];
    assert before[index..][1..] == before[index + 1..];
    assert before[index + 1..] == Ones(|token.words| - 1) + Ones(|before| - next);
    assert SpanOf(token) == [after[index]] + Ones(|token.words| - 1) by {
      MarkOf(token);
    }
    Laid(Spans(done), SpanOf(token), Ones(|before| - next));
    assert after == (Spans(done) + SpanOf(token)) + Ones(|before| - next);
  }

  lemma UnmarkedIsOne(spans: seq<nat>, done: seq<Token>, index: nat)
    requires Marked(spans, done, index) && index < |spans|
    ensures spans[index] == 1 && spans[index := 1] == spans
  {
    assert spans[index..][0] == 1;
  }

  lemma MarkOf(token: Token)
    requires token.words != [] && !token.Verbatim?
    ensures SpanOf(token) == [if token.Own? then 0 else |token.words|] + Ones(|token.words| - 1)
  {
  }

  lemma SpansOneMore(done: seq<Token>, token: Token)
    requires WellShaped(done) && token.words != []
    ensures WellShaped(done + [token]) && Spans(done + [token]) == Spans(done) + SpanOf(token)
  {
    hide SpanOf;
    assert (done + [token])[..|done|] == done;
  }

  lemma Laid<T>(a: seq<T>, b: seq<T>, c: seq<T>)
    ensures (a + b + c)[..|a + b|] == a + b && (a + b + c)[|a + b|..] == c
  {
  }

  // ---- The acting loop ----

  /** The shape of every token: an own option has its separate value exactly when it takes one and a word is left. */
  predicate Proper(tokens: seq<Token>) {
    && WellShaped(tokens)
    && forall i | 0 <= i < |tokens| :: ProperToken(tokens[i], i + 1 == |tokens|)
  }

  predicate ProperToken(token: Token, last: bool)
    requires token.words != []
  {
    match token
    case Own(words) =>
      && words[0] != "--" && IsWrapper(words[0])
      && |words| == if TakesNext(words[0]) && !(last && |words| == 1) then 2 else 1
    case Upstream(words) => words[0] != "--" && !IsWrapper(words[0]) && |words| <= 2
    case Verbatim(words) => last && (words[0] == "--" || !IsWrapper(words[0]))
  }

  lemma {:induction false} TokensAreProper(classify: Classifier, args: seq<string>)
    requires Tokenise(classify, args).outcome == Complete
    ensures Proper(Tokenise(classify, args).tokens)
    decreases |args|
  {
    hide WrapperOption, SplitLongValue, KeyOf, InlineValue;
    if args != [] {
      var tokens := Tokenise(classify, args).tokens;
      var rest := args[|tokens[0].words|..];
      if !tokens[0].Verbatim? {
        TokensAreProper(classify, rest);
        assert tokens[1..] == Tokenise(classify, rest).tokens;
        WordsAreTheArgv(classify, rest);
        assert ProperToken(tokens[0], |tokens| == 1);
        forall i | 0 < i < |tokens| ensures ProperToken(tokens[i], i + 1 == |tokens|) {
          assert tokens[i] == tokens[1..][i - 1];
        }
      }
    }
  }

  lemma {:induction false} ForeignOfConcat(a: seq<Token>, b: seq<Token>)
    ensures Foreign(a + b) == Foreign(a) + Foreign(b)
  {
    if a == [] {
      assert a + b == b;
    } else {
      ForeignOfConcat(a[1..], b);
      assert (a + b)[1..] == a[1..] + b;
      Associative(if a[0].Own? then [] else [a[0]], Foreign(a[1..]), Foreign(b));
    }
  }

  lemma {:induction false} OptionsOfConcat(a: seq<Token>, b: seq<Token>)
    requires WellShaped(a) && WellShaped(b)
    ensures WellShaped(a + b) && Options(a + b) == Options(a) + Options(b)
  {
    hide OptionOf;
    if a == [] {
      assert a + b == b;
    } else {
      OptionsOfConcat(a[1..], b);
      assert (a + b)[1..] == a[1..] + b;
    }
  }

  lemma {:induction false} FaultOfConcat(valid: Validator, a: seq<Token>, b: seq<Token>)
    requires WellShaped(a) && WellShaped(b)
    ensures WellShaped(a + b)
    ensures FirstFault(valid, a + b)
            == if FirstFault(valid, a).Some? then FirstFault(valid, a) else FirstFault(valid, b)
  {
    hide Fault;
    if a == [] {
      assert a + b == b;
    } else {
      FaultOfConcat(valid, a[1..], b);
      assert (a + b)[1..] == a[1..] + b;
    }
  }

  lemma {:induction false} SpansOfConcat(a: seq<Token>, b: seq<Token>)
    requires WellShaped(a) && WellShaped(b)
    ensures WellShaped(a + b) && Spans(a + b) == Spans(a) + Spans(b)
  {
    hide SpanOf;
    if b == [] {
      assert a + b == a;
    } else {
      SpansOfConcat(a, b[..|b| - 1]);
      assert (a + b)[..|a + b| - 1] == a + b[..|b| - 1];
    }
  }

  lemma {:induction false} OneSpanAWord(tokens: seq<Token>)
    requires WellShaped(tokens)
    ensures |Spans(tokens)| == |Words(tokens)|
  {
    if tokens == [] {
    } else {
      var done := tokens[..|tokens| - 1];
      OneSpanAWord(done);
      WordsOfOneMore(done, tokens[|tokens| - 1]);
      assert tokens == done + [tokens[|tokens| - 1]];
    }
  }

  /** Where token `k` stands in argv and in the marks. */
  lemma TokenStands(tokens: seq<Token>, k: nat)
    requires WellShaped(tokens) && k < |tokens|
    ensures var i := |Words(tokens[..k])|;
            && i + |tokens[k].words| == |Words(tokens[..k + 1])| <= |Words(tokens)| == |Spans(tokens)|
            && Words(tokens)[i..i + |tokens[k].words|] == tokens[k].words
            && Spans(tokens)[i..i + |tokens[k].words|] == SpanOf(tokens[k])
  {
    hide SpanOf;
    var before, token, after := tokens[..k], tokens[k], tokens[k + 1..];
    assert tokens[..k + 1] == before + [token];
    assert tokens == (before + [token]) + after;
    WordsOfOneMore(before, token);
    WordsOfConcat(before + [token], after);
    SpansOfConcat(before + [token], after);
    OneSpanAWord(tokens);
    OneSpanAWord(before);
    OneSpanAWord(before + [token]);
    assert (before + [token])[..k] == before;
  }

  /** An acting loop that has dealt with `k` tokens, and with `part` words of a verbatim one. */
  ghost predicate Acting(valid: Validator, tokens: seq<Token>, k: nat, part: nat, index: nat,
                         pass: seq<string>, options: seq<Setting>, visits: seq<nat>)
  {
    && Proper(tokens) && k <= |tokens|
    && (part > 0 ==> k + 1 == |tokens| && tokens[k].Verbatim? && part <= |tokens[k].words|)
    && index == |Words(tokens[..k])| + part
    && pass == Forwarded(tokens[..k]) + (if part > 0 then tokens[k].words[..part] else [])
    && options == Options(tokens[..k])
    && FirstFault(valid, tokens[..k]).None?
    && (if part > 0 then Starts(tokens[..k + 1], 0) <= visits else visits == Starts(tokens[..k], 0))
  }

  lemma ActingStart(valid: Validator, tokens: seq<Token>)
    requires Proper(tokens)
    ensures Acting(valid, tokens, 0, 0, 0, [], [], [])
  {
  }

  /** What the loop sees where it stands. */
  lemma ActingSees(valid: Validator, tokens: seq<Token>, k: nat, part: nat, index: nat,
                   pass: seq<string>, options: seq<Setting>, visits: seq<nat>)
    requires Acting(valid, tokens, k, part, index, pass, options, visits) && index < |Words(tokens)|
    ensures k < |tokens| && part < |tokens[k].words| && |Spans(tokens)| == |Words(tokens)|
    ensures index + |tokens[k].words| - part <= |Words(tokens)|
    ensures Words(tokens)[index] == tokens[k].words[part] && Spans(tokens)[index] == SpanOf(tokens[k])[part]
    ensures part == 0 ==> Words(tokens)[index..index + |tokens[k].words|] == tokens[k].words
    ensures part > 0 ==> tokens[k].Verbatim?
    ensures index + |tokens[k].words| - part < |Words(tokens)| ==> k + 1 < |tokens|
  {
    hide SpanOf, FirstFault, Options, Forwarded, Starts, ProperToken, Spans, Words;
    assert tokens[..|tokens|] == tokens;
    TokenStands(tokens, k);
    var i := index - part;
    assert Words(tokens)[i..i + |tokens[k].words|][part] == Words(tokens)[index];
    assert Spans(tokens)[i..i + |tokens[k].words|][part] == Spans(tokens)[index];
  }

  lemma ForeignOneMore(done: seq<Token>, token: Token)
    ensures Forwarded(done + [token]) == Forwarded(done) + if token.Own? then [] else token.words
  {
    ForeignOfConcat(done, [token]);
    WordsOfConcat(Foreign(done), Foreign([token]));
    assert Foreign([token]) == if token.Own? then [] else [token];
    assert Words([token]) == token.words + Words([token][1..]) == token.words;
  }

  /** Dealing with one token more. */
  lemma ActingWhole(valid: Validator, tokens: seq<Token>, k: nat, index: nat,
                    pass: seq<string>, options: seq<Setting>, visits: seq<nat>)
    requires Acting(valid, tokens, k, 0, index, pass, options, visits) && k < |tokens|
    requires Fault(valid, tokens[k]).None?
    ensures Acting(valid, tokens, k + 1, 0, index + |tokens[k].words|,
                   pass + (if tokens[k].Own? then [] else tokens[k].words),
                   options + (if tokens[k].Own? && OptionOf(tokens[k].words).Some?
                              then [OptionOf(tokens[k].words).value] else []),
                   visits + [index])
  {
    hide OptionOf, Fault, ProperToken;
    var done, token := tokens[..k], tokens[k];
    assert tokens[..k + 1] == done + [token];
    WordsOfOneMore(done, token);
    ForeignOneMore(done, token);
    OptionsOfConcat(done, [token]);
    FaultOfConcat(valid, done, [token]);
    assert (done + [token])[..k] == done;
  }

  /** Forwarding one word more of a verbatim stretch. */
  lemma ActingPart(valid: Validator, tokens: seq<Token>, k: nat, part: nat, index: nat,
                   pass: seq<string>, options: seq<Setting>, visits: seq<nat>)
    requires Acting(valid, tokens, k, part, index, pass, options, visits)
    requires k < |tokens| && tokens[k].Verbatim? && part < |tokens[k].words|
    ensures Acting(valid, tokens, k, part + 1, index + 1, pass + [tokens[k].words[part]], options, visits + [index])
  {
    hide Options, Forwarded, FirstFault, IsWrapper, TakesNext, Words;
    var words := tokens[k].words;
    assert words[..part + 1] == words[..part] + [words[part]];
    assert ProperToken(tokens[k], k + 1 == |tokens|);
    assert tokens[..k + 1][..k] == tokens[..k];
  }

  /** All of argv dealt with: nothing is left but, at most, the end of a verbatim stretch. */
  lemma ActingDone(valid: Validator, tokens: seq<Token>, k: nat, part: nat, index: nat,
                   pass: seq<string>, options: seq<Setting>, visits: seq<nat>)
    requires Acting(valid, tokens, k, part, index, pass, options, visits) && index == |Words(tokens)|
    ensures k == |tokens| || (k + 1 == |tokens| && tokens[k].Verbatim? && part > 0)
  {
    hide SpanOf, FirstFault, Options, Forwarded, Starts, ProperToken, Spans, Words;
    assert tokens[..|tokens|] == tokens;
    if k < |tokens| {
      TokenStands(tokens, k);
    }
  }

  lemma Resume<T>(pass: seq<T>, words: seq<T>, part: nat, before: seq<T>)
    requires part <= |words|
    ensures (pass + words[..part]) + (before + words)[|before| + part..] == pass + words
    ensures (pass + []) + (before + words)[|before|..] == pass + words
  {
  }

  lemma VerbatimSetsNothing(valid: Validator, done: seq<Token>, last: Token)
    requires WellShaped(done) && last.Verbatim? && last.words != [] && FirstFault(valid, done).None?
    ensures WellShaped(done + [last]) && Options(done + [last]) == Options(done)
    ensures FirstFault(valid, done + [last]).None?
  {
    OptionsOfConcat(done, [last]);
    FaultOfConcat(valid, done, [last]);
  }

  /** What the loop has at the end of argv, or on forwarding all the rest from `--`. */
  lemma ActingEnds(valid: Validator, tokens: seq<Token>, k: nat, part: nat, index: nat,
                   pass: seq<string>, options: seq<Setting>, visits: seq<nat>)
    requires Acting(valid, tokens, k, part, index, pass, options, visits)
    requires k == |tokens| || (k + 1 == |tokens| && tokens[k].Verbatim?)
    ensures index <= |Words(tokens)|
    ensures pass + Words(tokens)[index..] == Forwarded(tokens) && options == Options(tokens)
    ensures FirstFault(valid, tokens).None?
    ensures k == |tokens| || part > 0 ==> Starts(tokens, 0) <= visits
    ensures k < |tokens| && part == 0 ==> Starts(tokens, 0) == visits + [index]
  {
    hide Options, FirstFault, ProperToken, Words, Forwarded;
    assert tokens[..|tokens|] == tokens;
    assert pass + Words(tokens)[|Words(tokens)|..] == pass;
    if k < |tokens| {
      var done, last := tokens[..k], tokens[k];
      assert tokens == done + [last];
      WordsOfOneMore(done, last);
      ForeignOneMore(done, last);
      VerbatimSetsNothing(valid, done, last);
      Resume(Forwarded(done), last.words, part, Words(done));
    }
  }

  /** The first own option at fault is the first fault of all. */
  lemma ActingFails(valid: Validator, tokens: seq<Token>, k: nat, index: nat,
                    pass: seq<string>, options: seq<Setting>, visits: seq<nat>)
    requires Acting(valid, tokens, k, 0, index, pass, options, visits)
    requires k < |tokens| && Fault(valid, tokens[k]).Some?
    ensures FirstFault(valid, tokens) == Fault(valid, tokens[k])
  {
    hide Options, Forwarded, Fault, ProperToken, Starts;
    var done, rest := tokens[..k], tokens[k..];
    assert tokens == done + rest;
    FaultOfConcat(valid, done, rest);
  }

  /** `take_value`: the word after the option, if there is one. */
  method TakeValue(args: seq<string>, at: nat) returns (value: Option<string>, index: nat)
    requires at < |args|
    ensures at + 1 < |args| ==> value == Some(args[at + 1]) && index == at + 2
    ensures at + 1 == |args| ==> value == None && index == at + 1
  {
    index := at + 1;
    if index >= |args| {
      return None, index;
    }
    value := Some(args[index]);
    index := index + 1;
  }

  /** The main loop of `extract_app_options_with_env`, on the marks the boundary scan left. */
  method ActOnSpans(valid: Validator, args: seq<string>, spans: array<nat>, ghost tokens: seq<Token>)
    returns (result: Result<(seq<string>, seq<Setting>), Error>, ghost visits: seq<nat>)
    requires Proper(tokens) && Words(tokens) == args && spans[..] == Spans(tokens)
    ensures FirstFault(valid, tokens).Some? ==> result == Err(FirstFault(valid, tokens).value)
    ensures FirstFault(valid, tokens).None? ==> result == Ok((Forwarded(tokens), Options(tokens)))
    ensures result.Ok? ==> Starts(tokens, 0) <= visits
  {
    hide Acting, Words, Forwarded, Spans, Options, FirstFault, Starts, WrapperOption, SplitLongValue;
    var pass: seq<string> := [];
    var options: seq<Setting> := [];
    visits := [];
    ghost var k, part: nat := 0, 0;
    var index := 0;
    ActingStart(valid, tokens);
    while index < |args|
      invariant Acting(valid, tokens, k, part, index, pass, options, visits)
      invariant index <= |args|
      decreases |args| - index
    {
      ActingSees(valid, tokens, k, part, index, pass, options, visits);
      ghost var token := tokens[k];
      assert pass + [] == pass && options + [] == options;
      assert ProperToken(token, k + 1 == |tokens|);
      var arg := args[index];
      if arg == "--" {
        // After `--` every word belongs to libiperf as it is.
        ActingEnds(valid, tokens, k, part, index, pass, options, visits);
        visits := visits + [index];
        return Ok((pass + args[index..], options)), visits;
      }
      if spans[index] != 0 {
        assert part > 0 || token.Verbatim? ==> args[index..index + 1] == [token.words[part]];
        if token.Upstream? {
          ActingWhole(valid, tokens, k, index, pass, options, visits);
        } else {
          ActingPart(valid, tokens, k, part, index, pass, options, visits);
        }
        visits := visits + [index];
        pass := pass + args[index..index + spans[index]];
        index := index + spans[index];
        k, part := if token.Upstream? then k + 1 else k, if token.Upstream? then 0 else part + 1;
        continue;
      }
      assert token.Own? && part == 0;
      assert |token.words| == 2 ==> token.words[1] == args[index..index + 2][1] == args[index + 1];
      ghost var was := visits;
      visits := visits + [index];
      if Fault(valid, token).Some? {
        ActingFails(valid, tokens, k, index, pass, options, was);
      } else {
        ActingWhole(valid, tokens, k, index, pass, options, was);
      }
      var split := SplitLongValue(arg);
      if split.Some? {
        var (key, value) := split.value;
        if WrapperOption(key).Some? {
          if !valid(key, value) {
            return Err(InvalidValue), visits;
          }
          options := options + [(key, Some(value))];
        } else {
          pass := pass + [arg];
        }
        index := index + 1;
        k := k + 1;
        continue;
      }
      match WrapperOption(arg) {
        case Some(true) =>
          var value, next := TakeValue(args, index);
          if value.None? {
            return Err(MissingValue), visits;
          }
          if !valid(arg, value.value) {
            return Err(InvalidValue), visits;
          }
          options := options + [(arg, value)];
          index := next;
        case Some(false) =>
          options := options + [(arg, None)];
          index := index + 1;
        case None =>
          pass := pass + [arg];
          index := index + 1;
      }
      k := k + 1;
    }
    ActingDone(valid, tokens, k, part, index, pass, options, visits);
    ActingEnds(valid, tokens, k, part, index, pass, options, visits);
    assert pass + args[index..] == pass;
    result := Ok((pass, options));
  }

  // ---- The whole split ----

  datatype Parsed = Parsed(forwarded: seq<string>, options: seq<Setting>, help: bool, version: bool)

  /** What an argv must come to, by its reading alone. */
  function Split(classify: Classifier, valid: Validator, argv: seq<string>): Result<Parsed, Error> {
    if argv == [] then Err(MissingProgram)
    else
      var reading := Tokenise(classify, argv[1..]);
      match reading.outcome
      case Bad => Err(MalformedWord)
      case HelpAsked => Ok(Parsed([argv[0]], [], true, false))
      case VersionAsked => Ok(Parsed([argv[0]], [], false, true))
      case Complete =>
        match FirstFault(valid, reading.tokens)
        case Some(error) => Err(error)
        case None => Ok(Parsed([argv[0]] + Forwarded(reading.tokens), Options(reading.tokens), false, false))
  }

  /**
   The splitting part of `extract_app_options_with_env`. Main result: the two loops together compute the reading of
   argv, and the acting loop visits the word starts the boundary scan visited, as far as that scan went.
   */
  method ExtractAppOptions(classify: Classifier, valid: Validator, argv: seq<string>)
    returns (result: Result<Parsed, Error>, ghost scanned: seq<nat>, ghost acted: seq<nat>)
    ensures result == Split(classify, valid, argv)
    ensures result.Ok? && !result.value.help && !result.value.version ==> scanned <= acted
  {
    hide Tokenise, Words, Proper, FirstFault, Forwarded, Options, Spans, Starts;
    scanned, acted := [], [];
    if argv == [] {
      return Err(MissingProgram), scanned, acted;
    }
    var pass := [argv[0]];
    var rest := argv[1..];
    var spans, outcome, visits := ArgumentBoundaries(classify, rest);
    scanned := visits;
    if outcome.Bad? {
      return Err(MalformedWord), scanned, acted;
    }
    if outcome.HelpAsked? || outcome.VersionAsked? {
      return Ok(Parsed(pass, [], outcome.HelpAsked?, outcome.VersionAsked?)), scanned, acted;
    }
    ghost var tokens := Tokenise(classify, rest).tokens;
    TokensAreProper(classify, rest);
    WordsAreTheArgv(classify, rest);
    var done, seen := ActOnSpans(valid, rest, spans, tokens);
    acted := seen;
    match done
    case Err(error) => result := Err(error);
    case Ok((forwarded, options)) => result := Ok(Parsed(pass + forwarded, options, false, false));
  }

  /** Main result: splitting the forwarded argv again forwards it unchanged and takes no option. */
  lemma SplitIsIdempotent(classify: Classifier, valid: Validator, argv: seq<string>)
    requires Split(classify, valid, argv).Ok?
    requires !Split(classify, valid, argv).value.help && !Split(classify, valid, argv).value.version
    ensures var forwarded := Split(classify, valid, argv).value.forwarded;
            Split(classify, valid, forwarded) == Ok(Parsed(forwarded, [], false, false))
  {
    hide Tokenise, Words;
    var tokens := Tokenise(classify, argv[1..]).tokens;
    ForwardedReadsClean(classify, argv[1..]);
    assert ([argv[0]] + Forwarded(tokens))[1..] == Forwarded(tokens);
    NothingOwn(valid, tokens);
  }

  lemma {:induction false} NothingOwn(valid: Validator, tokens: seq<Token>)
    requires WellShaped(tokens)
    ensures WellShaped(Foreign(tokens)) && Foreign(Foreign(tokens)) == Foreign(tokens)
    ensures Options(Foreign(tokens)) == [] && FirstFault(valid, Foreign(tokens)).None?
  {
    if tokens != [] {
      NothingOwn(valid, tokens[1..]);
      var rest := Foreign(tokens[1..]);
      assert [] + rest == rest;
      assert ([tokens[0]] + rest)[1..] == rest;
    }
  }

  // ---- What an option says ----

  /** Main result on inline values: the key ends at the first `=`, and everything behind it is the value. */
  lemma InlineValueIsRest(key: string, value: string)
    requires '=' !in key && "--" <= key
    ensures SplitLongValue(key + "=" + value) == Some((key, value))
  {
    var word := key + "=" + value;
    assert word[..|key|] == key && word[|key| + 1..] == value;
    IndexOfIs(word, '=', |key|);
  }

  /** Only such a word has an inline value. */
  lemma InlineValueExactly(word: string)
    ensures SplitLongValue(word).Some?
            <==> exists key, value :: '=' !in key && "--" <= key && word == key + "=" + value
  {
    var i := IndexOf(word, '=');
    if i < |word| && "--" <= word[..i] {
      var key, value := word[..i], word[i + 1..];
      assert '=' !in key && word == key + "=" + value;
    }
    if key, value :| '=' !in key && "--" <= key && word == key + "=" + value {
      InlineValueIsRest(key, value);
    }
  }

  /** The options that take a value, by name. */
  predicate TakesValue(key: string) {
    || key == "--push.url" || key == "--push.job" || key == "--push.label" || key == "--push.timeout"
    || key == "--push.retries" || key == "--push.user-agent" || key == "--push.interval" || key == "--metrics.file"
    || key == "--metrics.format" || key == "--metrics.label" || key == "--metrics.prefix"
  }

  lemma ValueKey(key: string)
    requires TakesValue(key)
    ensures '=' !in key && "--" <= key && key != "--" && WrapperOption(key) == Some(true)
    ensures IndexOf(key, '=') == |key|
  {
    hide WrapperOption, IndexOf, TakesValue;
    ValueKeyIsOwn(key);
    ValueKeyIsPlain(key);
  }

  lemma ValueKeyIsOwn(key: string)
    requires TakesValue(key)
    ensures WrapperOption(key) == Some(true)
  {
  }

  lemma ValueKeyIsPlain(key: string)
    requires TakesValue(key)
    ensures '=' !in key && |key| > 2 && "--" <= key
  {
    hide WrapperOption, IndexOf;
    if key == "--push.url" {
    } else if key == "--push.job" {
    } else if key == "--push.label" {
    } else if key == "--push.timeout" {
    } else if key == "--push.retries" {
    } else if key == "--push.user-agent" {
    } else if key == "--push.interval" {
    } else if key == "--metrics.file" {
    } else if key == "--metrics.format" {
    } else if key == "--metrics.label" {
    } else {
      assert key == "--metrics.prefix";
    }
  }

  /** A word that starts an own option: as `key=value` it holds its value, as the bare key it takes the next word. */
  lemma ValueWord(key: string, value: string)
    requires TakesValue(key)
    ensures var word := key + "=" + value;
            && IsWrapper(word) && !TakesNext(word) && word != "--"
            && KeyOf(word) == key && InlineValue(word) == Some(value)
    ensures IsWrapper(key) && TakesNext(key) && KeyOf(key) == key && key != "--"
  {
    hide WrapperOption, TakesValue;
    ValueKey(key);
    InlineValueIsRest(key, value);
    var word := key + "=" + value;
    assert word[|key|] == '=';
  }

  /** A reading of `before` that stops nowhere, and whose last word is not short of its value. */
  predicate ReadsOn(classify: Classifier, before: seq<string>) {
    var reading := Tokenise(classify, before);
    && reading.outcome == Complete
    && (forall i | 0 <= i < |reading.tokens| :: !reading.tokens[i].Verbatim?)
    && (forall i | 0 <= i < |reading.tokens| :: reading.tokens[i].Own? ==> OptionOf(reading.tokens[i].words).Some?)
  }

  /** The first word of such a reading has all it needs. */
  lemma ReadsOnHead(classify: Classifier, before: seq<string>)
    requires ReadsOn(classify, before) && before != []
    ensures before[0] != "--"
    ensures || IsWrapper(before[0]) || classify(before[0]).NoOperand?
            || (classify(before[0]).NeedsOperand? && 1 < |before|)
    ensures IsWrapper(before[0]) && TakesNext(before[0]) ==> 1 < |before|
  {
    hide IsWrapper, TakesNext, KeyOf, InlineValue;
    var tokens := Tokenise(classify, before).tokens;
    if IsWrapper(before[0]) && before[0] != "--" {
      assert tokens[0].Own? && OptionOf(tokens[0].words).Some?;
    } else if tokens != [] {
      assert !tokens[0].Verbatim?;
    }
  }

  lemma ReadsOnRest(classify: Classifier, before: seq<string>, token: Token)
    requires ReadsOn(classify, before) && token.words != [] && |token.words| <= |before|
    requires Tokenise(classify, before) == Tokenise(classify, before[|token.words|..]).After(token)
    ensures ReadsOn(classify, before[|token.words|..])
  {
    hide Tokenise, OptionOf;
    var tokens, rest := Tokenise(classify, before).tokens, Tokenise(classify, before[|token.words|..]).tokens;
    assert forall i | 0 <= i < |rest| :: rest[i] == tokens[i + 1];
  }

  /** What follows such words is read as if it came first. */
  lemma {:induction false} ReadAfter(classify: Classifier, before: seq<string>, after: seq<string>)
    requires ReadsOn(classify, before)
    ensures var rest := Tokenise(classify, after);
            Tokenise(classify, before + after) == Reading(Tokenise(classify, before).tokens + rest.tokens, rest.outcome)
    decreases |before|
  {
    hide IsWrapper, TakesNext, ReadsOn, Tokenise;
    var rest := Tokenise(classify, after);
    if before == [] {
      NothingIsRead(classify);
      assert before + after == after && [] + rest.tokens == rest.tokens;
    } else {
      ReadsOnHead(classify, before);
      var both := before + after;
      assert both[0] == before[0];
      var token := HeadToken(classify, before, 0);
      var again := HeadToken(classify, both, 0);
      var n := |token.words|;
      assert before[0..] == before && both[0..] == both;
      assert token.words == before[..n] == both[..n];
      assert again == token by {
        SameToken(token, again);
      }
      ReadsOnRest(classify, before, token);
      ReadAfter(classify, before[n..], after);
      assert both[n..] == before[n..] + after;
      var tokens := Tokenise(classify, before[n..]).tokens;
      assert [token] + (tokens + rest.tokens) == ([token] + tokens) + rest.tokens;
    }
  }

  lemma NothingIsRead(classify: Classifier)
    ensures Tokenise(classify, []) == Reading([], Complete)
  {
  }

  lemma SameToken(a: Token, b: Token)
    requires !a.Verbatim? && !b.Verbatim? && (a.Own? <==> b.Own?) && a.words == b.words
    ensures a == b
  {
  }

  /** The tokens of an option that takes a value, written either way. */
  lemma ValueTokens(classify: Classifier, key: string, value: string, after: seq<string>)
    requires TakesValue(key)
    ensures Tokenise(classify, [key + "=" + value] + after)
            == Tokenise(classify, after).After(Own([key + "=" + value]))
    ensures Tokenise(classify, [key, value] + after) == Tokenise(classify, after).After(Own([key, value]))
    ensures OptionOf([key + "=" + value]) == OptionOf([key, value]) == Some((key, Some(value)))
  {
    hide WrapperOption, SplitLongValue, IsWrapper, TakesNext, KeyOf, InlineValue;
    ValueWord(key, value);
    assert ([key + "=" + value] + after)[1..] == after;
    assert ([key, value] + after)[2..] == after && ([key, value] + after)[..2] == [key, value];
  }

  /**
   Main result on values: wherever it stands, `key=value` and `key` followed by `value` split alike, in the option set,
   in what is forwarded, in what is at fault and in how the reading ends.
   */
  lemma InlineAndSeparateAgree(classify: Classifier, valid: Validator, program: string, before: seq<string>,
                               key: string, value: string, after: seq<string>)
    requires ReadsOn(classify, before) && TakesValue(key)
    ensures Split(classify, valid, [program] + before + [key + "=" + value] + after)
            == Split(classify, valid, [program] + before + [key, value] + after)
  {
    hide Tokenise, ReadsOn, TakesValue, OptionOf;
    var inline, separate := [key + "=" + value] + after, [key, value] + after;
    ReadAfter(classify, before, inline);
    ReadAfter(classify, before, separate);
    ValueTokens(classify, key, value, after);
    assert ([program] + before + [key + "=" + value] + after)[1..] == before + inline;
    assert ([program] + before + [key, value] + after)[1..] == before + separate;
    var tokens, rest := Tokenise(classify, before).tokens, Tokenise(classify, after).tokens;
    SameEffect(valid, tokens, Own([key + "=" + value]), Own([key, value]), rest);
  }

  /** Two own options that say the same can stand for each other. */
  lemma SameEffect(valid: Validator, before: seq<Token>, a: Token, b: Token, after: seq<Token>)
    requires WellShaped(before) && WellShaped(after) && a.Own? && b.Own? && a.words != [] && b.words != []
    requires OptionOf(a.words) == OptionOf(b.words)
    ensures var first, second := before + ([a] + after), before + ([b] + after);
            && WellShaped(first) && WellShaped(second)
            && Forwarded(first) == Forwarded(second) && Options(first) == Options(second)
            && FirstFault(valid, first) == FirstFault(valid, second)
  {
    hide OptionOf;
    OptionsOfConcat(before, [a] + after);
    OptionsOfConcat(before, [b] + after);
    FaultOfConcat(valid, before, [a] + after);
    FaultOfConcat(valid, before, [b] + after);
    ForeignOfConcat(before, [a] + after);
    ForeignOfConcat(before, [b] + after);
    assert ([a] + after)[1..] == after && ([b] + after)[1..] == after;
  }

  /** A whole argv of one own option. */
  lemma OneOption(classify: Classifier, valid: Validator, program: string, words: seq<string>)
    requires words != [] && Tokenise(classify, words) == Reading([Own(words)], Complete)
    ensures Split(classify, valid, [program] + words)
            == match OptionOf(words)
               case None => Err(MissingValue)
               case Some((key, value)) =>
                 if value.Some? && !valid(key, value.value) then Err(InvalidValue)
                 else Ok(Parsed([program], [(key, value)], false, false))
  {
    hide Tokenise, OptionOf;
    assert ([program] + words)[1..] == words && ([program] + words)[0] == program && [program] + [] == [program];
    var tokens := [Own(words)];
    assert tokens[1..] == [];
    assert Forwarded(tokens) == [] by {
      assert Foreign(tokens) == [] + Foreign([]);
    }
    assert Options(tokens) == if OptionOf(words).Some? then [OptionOf(words).value] else [];
    assert FirstFault(valid, tokens) == Fault(valid, tokens[0]);
  }

  lemma OwnAlone(classify: Classifier, words: seq<string>)
    requires words != [] && words[0] != "--" && IsWrapper(words[0]) && |words| <= 2
    requires |words| == 2 ==> TakesNext(words[0])
    ensures Tokenise(classify, words) == Reading([Own(words)], Complete)
  {
    hide IsWrapper, TakesNext;
    assert words[|words|..] == [] && words[..|words|] == words;
    assert |words| == 1 ==> [words[0]] == words;
    NothingIsRead(classify);
  }

  /** The option set is the key with its value, if the option's own parser takes that; nothing is forwarded. */
  lemma ValueIsSet(classify: Classifier, valid: Validator, program: string, key: string, value: string)
    requires TakesValue(key)
    ensures Split(classify, valid, [program, key + "=" + value]) == Split(classify, valid, [program, key, value])
    ensures Split(classify, valid, [program, key, value])
            == if valid(key, value) then Ok(Parsed([program], [(key, Some(value))], false, false))
               else Err(InvalidValue)
    ensures Split(classify, valid, [program, key]) == Err(MissingValue)
  {
    hide WrapperOption, SplitLongValue, TakesValue, IsWrapper, TakesNext, KeyOf, InlineValue, Tokenise, Split;
    ValueWord(key, value);
    var inline, separate := [key + "=" + value], [key, value];
    OwnAlone(classify, inline);
    OwnAlone(classify, separate);
    OwnAlone(classify, [key]);
    OneOption(classify, valid, program, inline);
    OneOption(classify, valid, program, separate);
    OneOption(classify, valid, program, [key]);
    assert [program] + inline == [program, key + "=" + value] && [program] + separate == [program, key, value];
    assert [program] + [key] == [program, key];
  }

  /** The flag takes no word after it, but may be given a value of its own. */
  lemma FlagIsSet(classify: Classifier, valid: Validator, program: string, value: string)
    ensures Split(classify, valid, [program, "--push.delete-on-exit"])
            == Ok(Parsed([program], [("--push.delete-on-exit", None)], false, false))
    ensures Split(classify, valid, [program, "--push.delete-on-exit=" + value])
            == if valid("--push.delete-on-exit", value)
               then Ok(Parsed([program], [("--push.delete-on-exit", Some(value))], false, false))
               else Err(InvalidValue)
  {
    hide Tokenise, Split, IsWrapper, TakesNext, KeyOf, InlineValue;
    var flag := "--push.delete-on-exit";
    FlagWord(flag);
    OwnAlone(classify, [flag]);
    OneOption(classify, valid, program, [flag]);
    assert [program] + [flag] == [program, flag];
    var inline := flag + "=" + value;
    assert inline == "--push.delete-on-exit=" + value by {
      assert flag + "=" == "--push.delete-on-exit=";
    }
    FlagValue(flag, value);
    OwnAlone(classify, [inline]);
    OneOption(classify, valid, program, [inline]);
    assert [program] + [inline] == [program, inline];
  }

  lemma FlagValue(flag: string, value: string)
    requires flag == "--push.delete-on-exit"
    ensures var inline := flag + "=" + value;
            && IsWrapper(inline) && !TakesNext(inline) && inline != "--"
            && KeyOf(inline) == flag && InlineValue(inline) == Some(value)
  {
    hide IndexOf, SplitLongValue, WrapperOption;
    assert '=' !in flag && "--" <= flag;
    InlineValueIsRest(flag, value);
    FlagIsNoValueKey(flag);
    assert (flag + "=" + value)[|flag|] == '=';
  }

  lemma FlagWord(flag: string)
    requires flag == "--push.delete-on-exit"
    ensures IsWrapper(flag) && !TakesNext(flag) && KeyOf(flag) == flag && InlineValue(flag).None? && |flag| > 2
  {
    hide IndexOf;
    assert '=' !in flag;
    assert IndexOf(flag, '=') == |flag|;
    FlagIsNoValueKey(flag);
  }

  lemma FlagIsNoValueKey(flag: string)
    requires flag == "--push.delete-on-exit"
    ensures WrapperOption(flag) == Some(false)
  {
  }

  /** No other word is an option of this program, whatever value it carries. */
  lemma NothingElseIsOwn(word: string)
    ensures IsWrapper(word) <==> TakesValue(KeyOf(word)) || KeyOf(word) == "--push.delete-on-exit"
  {
  }

  /**
   Main result on the rest: from `--`, or from a word native getopt does not know, everything is forwarded as it stands,
   this program's own options included; and the word after an option of libiperf that needs one is its operand.
   */
  lemma ForwardedAsItStands(classify: Classifier, valid: Validator, program: string, before: seq<string>, word: string,
                            after: seq<string>)
    requires ReadsOn(classify, before) && FirstFault(valid, Tokenise(classify, before).tokens).None?
    requires word == "--" || (!IsWrapper(word) && classify(word).Unknown?)
    ensures var tokens := Tokenise(classify, before).tokens;
            Split(classify, valid, [program] + before + [word] + after)
            == Ok(Parsed([program] + Forwarded(tokens) + [word] + after, Options(tokens), false, false))
  {
    hide IsWrapper, TakesNext, ReadsOn, Tokenise, Forwarded, Options, FirstFault;
    var rest := [word] + after;
    var tokens := Tokenise(classify, before).tokens;
    ReadAfter(classify, before, rest);
    assert ([program] + before + [word] + after)[1..] == before + rest;
    ReadVerbatimAlone(classify, rest);
    ForeignOneMore(tokens, Verbatim(rest));
    VerbatimSetsNothing(valid, tokens, Verbatim(rest));
    assert [program] + (Forwarded(tokens) + rest) == [program] + Forwarded(tokens) + [word] + after;
  }

  /**
   A word that asks for help or the version, or is malformed, decides everything; what stands around it does not count.
   */
  lemma StopsThere(classify: Classifier, valid: Validator, program: string, before: seq<string>, word: string,
                   after: seq<string>)
    requires ReadsOn(classify, before) && word != "--" && !IsWrapper(word)
    ensures var split := Split(classify, valid, [program] + before + [word] + after);
            && (classify(word).Help? ==> split == Ok(Parsed([program], [], true, false)))
            && (classify(word).Version? ==> split == Ok(Parsed([program], [], false, true)))
            && (classify(word).Malformed? ==> split == Err(MalformedWord))
  {
    hide IsWrapper, TakesNext, ReadsOn;
    var rest := [word] + after;
    ReadAfter(classify, before, rest);
    hide Tokenise;
    assert ([program] + before + [word] + after)[1..] == before + rest;
    assert ([program] + before + [word] + after)[0] == program;
    StopsAtOnce(classify, rest);
  }

  lemma StopsAtOnce(classify: Classifier, rest: seq<string>)
    requires rest != [] && rest[0] != "--" && !IsWrapper(rest[0])
    ensures classify(rest[0]).Help? ==> Tokenise(classify, rest).outcome == HelpAsked
    ensures classify(rest[0]).Version? ==> Tokenise(classify, rest).outcome == VersionAsked
    ensures classify(rest[0]).Malformed? ==> Tokenise(classify, rest).outcome == Bad
  {
    hide IsWrapper, TakesNext;
  }

  lemma ReadVerbatimAlone(classify: Classifier, rest: seq<string>)
    requires rest != [] && (rest[0] == "--" || (!IsWrapper(rest[0]) && classify(rest[0]).Unknown?))
    ensures Tokenise(classify, rest) == Reading([Verbatim(rest)], Complete)
  {
    hide IsWrapper, TakesNext;
  }

  /** The operand of a libiperf option is not looked at: even an own option's name there is only an operand. */
  lemma OperandIsForwarded(classify: Classifier, valid: Validator, program: string, option: string, operand: string)
    requires option != "--" && !IsWrapper(option) && classify(option).NeedsOperand?
    ensures Split(classify, valid, [program, option, operand])
            == Ok(Parsed([program, option, operand], [], false, false))
  {
    hide IsWrapper, TakesNext;
    var words := [option, operand];
    assert words[2..] == [] && words[..2] == words;
    NothingIsRead(classify);
    assert Tokenise(classify, words) == Reading([Upstream(words)], Complete);
    hide Tokenise;
    assert [program, option, operand][1..] == words;
    var tokens := [Upstream(words)];
    assert tokens[1..] == [] && words + [] == words;
    assert Words(tokens) == words;
    assert Foreign(tokens) == tokens + Foreign([]) == tokens;
    NothingOwn(valid, tokens);
    assert Options(tokens) == [] && FirstFault(valid, tokens).None?;
    assert [program] + words == [program, option, operand];
  }
}
