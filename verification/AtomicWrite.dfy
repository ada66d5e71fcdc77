/**
 `atomic_write` of src/metrics_file.rs: replace a snapshot by way of a temporary file in the same directory. Any number
 of calls run at once on one directory, each stops or fails anywhere, and no lock is taken. An inode number stands for
 the identity of a file, and is not given out twice.
 */
module AtomicWrite {
  import opened Decimal
  import opened Texts
  import opened Wrappers

  datatype File = File(contents: string, mode: nat) {
    function Appended(text: string): File {
      this.(contents := contents + text)
    }
  }

  /** Where a call stands. From `Created` to `Broken` it owns a temporary file. */
  datatype Pc =
    | Idle
    | Looked(mode: nat)
    | Created(ino: nat, mode: nat)
    | Writing(ino: nat, mode: nat, written: nat)
    | Flushed(ino: nat, mode: nat)
    | Broken(ino: nat)
    | Failed
    | Done
  {
    predicate Holds() {
      Created? || Writing? || Flushed? || Broken?
    }
  }

  /** The directory, the calls, and which calls have put their file in place, in order. */
  datatype State = State(names: map<string, nat>, inodes: map<nat, File>, calls: map<nat, Pc>, history: seq<nat>) {
    function At(call: nat): Pc {
      if call in calls then calls[call] else Idle
    }

    function Moved(call: nat, pc: Pc): State {
      this.(calls := calls[call := pc])
    }
  }

  /** The destination, what each call is to write and through which temporary name, and the directory at the start. */
  datatype Setup = Setup(path: string, temp: nat -> string, contents: nat -> string,
                         names: map<string, nat>, inodes: map<nat, File>) {
    ghost predicate Valid() {
      && (forall call :: temp(call) != path)
      && (forall name <- names :: names[name] in inodes)
    }

    function Start(): State {
      State(names, inodes, map[], [])
    }
  }

  /** Octal 600: reading and writing for the owner alone. */
  const TEMP_MODE: nat := 0x180

  // ---- One step of one call ----

  /** `fs::metadata(path)` */
  ghost predicate Look(setup: Setup, s: State, call: nat, s': State) {
    if s'.At(call).Looked? then
      && setup.path in s.names && s.names[setup.path] in s.inodes
      && s' == s.Moved(call, Looked(s.inodes[s.names[setup.path]].mode))
    else s' == s.Moved(call, Failed)
  }

  /** `create_new`: never an existing file. */
  ghost predicate Create(setup: Setup, s: State, call: nat, mode: nat, s': State) {
    if s'.At(call).Created? then
      var ino := s'.At(call).ino;
      && setup.temp(call) !in s.names && ino !in s.inodes
      && s' == s.Moved(call, Created(ino, mode))
               .(names := s.names[setup.temp(call) := ino], inodes := s.inodes[ino := File("", TEMP_MODE)])
    else s' == s.Moved(call, Failed)
  }

  ghost predicate SetPermissions(s: State, call: nat, ino: nat, mode: nat, s': State) {
    && s'.At(call) == Writing(ino, mode, 0) && ino in s.inodes
    && s' == s.Moved(call, Writing(ino, mode, 0)).(inodes := s.inodes[ino := s.inodes[ino].(mode := mode)])
  }

  /** One write of a part of what is left; a write may be cut short. */
  ghost predicate WriteSome(setup: Setup, s: State, call: nat, ino: nat, mode: nat, written: nat, s': State) {
    && s'.At(call).Writing? && ino in s.inodes
    && written < s'.At(call).written <= |setup.contents(call)|
    && var upto := s'.At(call).written;
       s' == s.Moved(call, Writing(ino, mode, upto))
              .(inodes := s.inodes[ino := s.inodes[ino].Appended(setup.contents(call)[written..upto])])
  }

  ghost predicate Flush(setup: Setup, s: State, call: nat, ino: nat, mode: nat, written: nat, s': State) {
    written == |setup.contents(call)| && s' == s.Moved(call, Flushed(ino, mode))
  }

  ghost predicate Rename(setup: Setup, s: State, call: nat, ino: nat, s': State) {
    s' == State((s.names - {setup.temp(call)})[setup.path := ino], s.inodes, s.calls[call := Done], s.history + [call])
  }

  /** `remove_file` on the way out; its own failure is ignored. */
  ghost predicate Remove(setup: Setup, s: State, call: nat, s': State) {
    || s' == s.Moved(call, Failed).(names := s.names - {setup.temp(call)})
    || s' == s.Moved(call, Failed)
  }

  ghost predicate Step(setup: Setup, s: State, call: nat, s': State) {
    match s.At(call)
    case Idle => Look(setup, s, call, s')
    case Looked(mode) => Create(setup, s, call, mode, s')
    case Created(ino, mode) => SetPermissions(s, call, ino, mode, s') || s' == s.Moved(call, Broken(ino))
    case Writing(ino, mode, written) =>
      || WriteSome(setup, s, call, ino, mode, written, s') || Flush(setup, s, call, ino, mode, written, s')
      || s' == s.Moved(call, Broken(ino))
    case Flushed(ino, _) => Rename(setup, s, call, ino, s') || s' == s.Moved(call, Broken(ino))
    case Broken(_) => Remove(setup, s, call, s')
    case Failed => false
    case Done => false
  }

  // ---- The invariant ----

  /** The file at the destination: as it was, or a whole write with the mode there was before. */
  function Snapshot(setup: Setup, history: seq<nat>): Option<File> {
    if setup.path in setup.names && setup.names[setup.path] in setup.inodes then
      var initial := setup.inodes[setup.names[setup.path]];
      Some(if history == [] then initial else File(setup.contents(history[|history| - 1]), initial.mode))
    else None
  }

  function FileAt(s: State, name: string): Option<File> {
    if name in s.names && s.names[name] in s.inodes then Some(s.inodes[s.names[name]]) else None
  }

  ghost predicate Kept(setup: Setup, s: State) {
    && (forall ino <- setup.inodes :: ino in s.inodes && s.inodes[ino] == setup.inodes[ino])
    && (forall name <- setup.names :: name in s.names && (name != setup.path ==> s.names[name] == setup.names[name]))
    && (forall name <- s.names :: s.names[name] in s.inodes)
  }

  ghost predicate OwnsTemp(setup: Setup, s: State, call: nat, ino: nat) {
    && setup.temp(call) in s.names && s.names[setup.temp(call)] == ino
    && setup.temp(call) !in setup.names && ino !in setup.inodes
    && (forall name <- s.names :: s.names[name] == ino ==> name == setup.temp(call))
    && ino in s.inodes
  }

  ghost predicate PcOk(setup: Setup, s: State, call: nat) {
    var pc := s.At(call);
    && (pc.Holds() ==> OwnsTemp(setup, s, call, pc.ino))
    && (pc.Looked? || pc.Created? || pc.Writing? || pc.Flushed? ==>
          Snapshot(setup, []).Some? && pc.mode == Snapshot(setup, []).value.mode)
    && (pc.Created? ==> s.inodes[pc.ino] == File("", 0x180))
    && (pc.Writing? ==> pc.written <= |setup.contents(call)|
                        && s.inodes[pc.ino] == File(setup.contents(call)[..pc.written], pc.mode))
    && (pc.Flushed? ==> s.inodes[pc.ino] == File(setup.contents(call), pc.mode))
    && (pc.Done? <==> call in s.history)
  }

  ghost predicate Apart(s: State) {
    forall a, b | a != b && s.At(a).Holds() && s.At(b).Holds() :: s.At(a).ino != s.At(b).ino
  }

  ghost predicate Inv(setup: Setup, s: State) {
    && setup.Valid() && Kept(setup, s)
    && FileAt(s, setup.path) == Snapshot(setup, s.history)
    && (forall call :: PcOk(setup, s, call))
    && Apart(s)
    && (forall i, j | 0 <= i < j < |s.history| :: s.history[i] != s.history[j])
  }

  lemma StartInv(setup: Setup)
    requires setup.Valid()
    ensures Inv(setup, setup.Start())
  {
  }

  lemma StaysApart(s: State, call: nat, s': State)
    requires Apart(s) && s'.calls.Keys <= s.calls.Keys + {call}
    requires forall other | other != call :: s'.At(other) == s.At(other)
    requires s'.At(call).Holds() ==> s.At(call).Holds() && s.At(call).ino == s'.At(call).ino
    ensures Apart(s')
  {
    forall a, b | a != b && s'.At(a).Holds() && s'.At(b).Holds() ensures s'.At(a).ino != s'.At(b).ino {
      assert s.At(a).Holds() && s.At(b).Holds();
      assert s.At(a).ino != s.At(b).ino;
    }
  }

  /** A step of the program counter alone. */
  lemma MoveKeeps(setup: Setup, s: State, call: nat, pc: Pc)
    requires Inv(setup, s) && !s.At(call).Done? && !pc.Done?
    requires pc.Holds() ==> s.At(call).Holds() && s.At(call).ino == pc.ino
    requires PcOk(setup, s.Moved(call, pc), call)
    ensures Inv(setup, s.Moved(call, pc))
  {
    var s' := s.Moved(call, pc);
    StaysApart(s, call, s');
    forall other ensures PcOk(setup, s', other) {
      assert PcOk(setup, s, other);
      assert other != call ==> s'.At(other) == s.At(other);
    }
  }

  lemma CreateKeeps(setup: Setup, s: State, call: nat, mode: nat, ino: nat)
    requires Inv(setup, s) && s.At(call) == Looked(mode) && setup.temp(call) !in s.names && ino !in s.inodes
    ensures Inv(setup, s.Moved(call, Created(ino, mode))
                        .(names := s.names[setup.temp(call) := ino], inodes := s.inodes[ino := File("", TEMP_MODE)]))
  {
    hide Snapshot;
    var s' := s.Moved(call, Created(ino, mode))
               .(names := s.names[setup.temp(call) := ino], inodes := s.inodes[ino := File("", TEMP_MODE)]);
    assert PcOk(setup, s, call);
    forall other ensures PcOk(setup, s', other) {
      assert PcOk(setup, s, other);
      assert other != call ==> s'.At(other) == s.At(other);
    }
    assert FileAt(s', setup.path) == FileAt(s, setup.path);
    forall a, b | a != b && s'.At(a).Holds() && s'.At(b).Holds() ensures s'.At(a).ino != s'.At(b).ino {
      assert PcOk(setup, s, a) && PcOk(setup, s, b);
    }
  }

  /** A step that changes the call's own temporary file. */
  lemma OwnWriteKeeps(setup: Setup, s: State, call: nat, pc: Pc, file: File)
    requires Inv(setup, s) && s.At(call).Holds() && pc.Holds() && pc.ino == s.At(call).ino
    requires PcOk(setup, s.Moved(call, pc).(inodes := s.inodes[pc.ino := file]), call)
    ensures Inv(setup, s.Moved(call, pc).(inodes := s.inodes[pc.ino := file]))
  {
    hide Snapshot;
    var s' := s.Moved(call, pc).(inodes := s.inodes[pc.ino := file]);
    StaysApart(s, call, s');
    assert PcOk(setup, s, call);
    forall other ensures PcOk(setup, s', other) {
      assert PcOk(setup, s, other);
      assert other != call ==> s'.At(other) == s.At(other);
    }
    assert FileAt(s', setup.path) == FileAt(s, setup.path);
  }

  lemma RenameKeeps(setup: Setup, s: State, call: nat, s': State)
    requires Inv(setup, s) && s.At(call).Flushed? && Rename(setup, s, call, s.At(call).ino, s')
    ensures Inv(setup, s')
  {
    var ino := s.At(call).ino;
    StaysApart(s, call, s');
    assert PcOk(setup, s, call);
    forall other ensures PcOk(setup, s', other) {
      assert PcOk(setup, s, other);
      if other != call {
        assert s'.At(other) == s.At(other);
        assert s'.At(other).Holds() ==> s.At(other).ino != ino;
        assert other in s'.history <==> other in s.history;
      }
    }
    assert FileAt(s', setup.path) == Some(s.inodes[ino]);
    assert call !in s.history;
  }

  lemma RemoveKeeps(setup: Setup, s: State, call: nat)
    requires Inv(setup, s) && s.At(call).Broken?
    ensures Inv(setup, s.Moved(call, Failed).(names := s.names - {setup.temp(call)}))
  {
    hide Snapshot;
    var s' := s.Moved(call, Failed).(names := s.names - {setup.temp(call)});
    StaysApart(s, call, s');
    assert PcOk(setup, s, call);
    forall other ensures PcOk(setup, s', other) {
      assert PcOk(setup, s, other);
      if other != call {
        assert s'.At(other) == s.At(other);
        assert s'.At(other).Holds() ==> s.At(other).ino != s.At(call).ino;
      }
    }
    assert FileAt(s', setup.path) == FileAt(s, setup.path);
  }

  /** Every step of every call keeps the invariant. */
  lemma StepKeepsInv(setup: Setup, s: State, call: nat, s': State)
    requires Inv(setup, s) && Step(setup, s, call, s')
    ensures Inv(setup, s')
  {
    hide Inv;
    CallIsOk(setup, s, call);
    match s.At(call)
    case Idle =>
      MoveKeeps(setup, s, call, s'.At(call));
    case Looked(mode) =>
      if s'.At(call).Created? {
        CreateKeeps(setup, s, call, mode, s'.At(call).ino);
      } else {
        MoveKeeps(setup, s, call, Failed);
      }
    case Created(ino, mode) =>
      if s' == s.Moved(call, Broken(ino)) {
        MoveKeeps(setup, s, call, Broken(ino));
      } else {
        OwnWriteKeeps(setup, s, call, Writing(ino, mode, 0), s.inodes[ino].(mode := mode));
      }
    case Writing(ino, mode, written) =>
      WritingKeepsInv(setup, s, call, s');
    case Flushed(ino, _) =>
      if s' == s.Moved(call, Broken(ino)) {
        MoveKeeps(setup, s, call, Broken(ino));
      } else {
        RenameKeeps(setup, s, call, s');
      }
    case Broken(_) =>
      if s' == s.Moved(call, Failed) {
        MoveKeeps(setup, s, call, Failed);
      } else {
        RemoveKeeps(setup, s, call);
      }
    case Failed =>
    case Done =>
  }

  lemma CallIsOk(setup: Setup, s: State, call: nat)
    requires Inv(setup, s)
    ensures PcOk(setup, s, call) && FileAt(s, setup.path) == Snapshot(setup, s.history)
    ensures Snapshot(setup, s.history).Some? ==> Snapshot(setup, s.history).value.mode == Snapshot(setup, []).value.mode
  {
  }

  lemma WritingKeepsInv(setup: Setup, s: State, call: nat, s': State)
    requires Inv(setup, s) && s.At(call).Writing? && Step(setup, s, call, s')
    ensures Inv(setup, s')
  {
    hide Inv, Snapshot;
    CallIsOk(setup, s, call);
    var Writing(ino, mode, written) := s.At(call);
    var contents := setup.contents(call);
    if s' == s.Moved(call, Broken(ino)) {
      MoveKeeps(setup, s, call, Broken(ino));
    } else if Flush(setup, s, call, ino, mode, written, s') {
      assert contents[..written] == contents;
      MoveKeeps(setup, s, call, Flushed(ino, mode));
    } else {
      var upto := s'.At(call).written;
      assert contents[..written] + contents[written..upto] == contents[..upto];
      OwnWriteKeeps(setup, s, call, Writing(ino, mode, upto), File(contents[..upto], mode));
    }
  }

  // ---- Runs ----

  /** Steps of any calls, in any interleaving; a call that stops for good just takes no more steps. */
  ghost predicate Run(setup: Setup, states: seq<State>, who: seq<nat>) {
    && |states| == |who| + 1
    && forall i | 0 <= i < |who| :: Step(setup, states[i], who[i], states[i + 1])
  }

  lemma {:induction false} RunKeepsInv(setup: Setup, states: seq<State>, who: seq<nat>)
    requires Run(setup, states, who) && Inv(setup, states[0])
    ensures forall i | 0 <= i < |states| :: Inv(setup, states[i])
    decreases |who|
  {
    hide Inv, Step;
    if who != [] {
      var n := |who| - 1;
      assert Run(setup, states[..n + 1], who[..n]);
      RunKeepsInv(setup, states[..n + 1], who[..n]);
      assert Inv(setup, states[..n + 1][n]);
      StepKeepsInv(setup, states[n], who[n], states[n + 1]);
      assert forall i | 0 <= i <= n :: states[i] == states[..n + 1][i];
    }
  }

  /** What was found at the destination before any call. */
  function Initial(setup: Setup): Option<File> {
    Snapshot(setup, [])
  }

  /**
   Main result: in every reachable state the destination is as it was found, or holds all that one completed call was to
   write, with the mode it had; and which of the two is told by the calls completed so far. Every other file of the
   start is untouched.
   */
  lemma DestinationIsWhole(setup: Setup, states: seq<State>, who: seq<nat>, at: nat)
    requires setup.Valid() && Run(setup, states, who) && states[0] == setup.Start() && at < |states|
    ensures var s := states[at];
            && FileAt(s, setup.path) == Snapshot(setup, s.history)
            && (s.history == [] ==> FileAt(s, setup.path) == Initial(setup))
            && (s.history != [] && Initial(setup).Some? ==>
                  var last := s.history[|s.history| - 1];
                  && s.At(last).Done?
                  && FileAt(s, setup.path) == Some(File(setup.contents(last), Initial(setup).value.mode)))
            && (forall call :: s.At(call).Done? <==> call in s.history)
            && (forall i, j | 0 <= i < j < |s.history| :: s.history[i] != s.history[j])
            && (forall name <- setup.names | name != setup.path ::
                  name in s.names && s.names[name] == setup.names[name] && s.names[name] in s.inodes
                  && s.inodes[s.names[name]] == setup.inodes[setup.names[name]])
  {
    hide Step;
    StartInv(setup);
    RunKeepsInv(setup, states, who);
    var s := states[at];
    forall call ensures s.At(call).Done? <==> call in s.history {
      assert PcOk(setup, s, call);
    }
    if s.history != [] {
      assert s.history[|s.history| - 1] in s.history;
    }
  }

  lemma StepKeepsOtherNames(setup: Setup, s: State, call: nat, s': State)
    requires PcOk(setup, s, call) && Step(setup, s, call, s')
    ensures forall name <- s.names | name != setup.path && name != setup.temp(call) ::
              name in s'.names && s'.names[name] == s.names[name]
    ensures forall name <- s'.names | name != setup.path && name != setup.temp(call) :: name in s.names
    ensures setup.temp(call) in s.names && !s.At(call).Holds() ==>
              setup.temp(call) in s'.names && s'.names[setup.temp(call)] == s.names[setup.temp(call)]
  {
    hide Snapshot, PcOk;
  }

  lemma StepKeepsOtherFiles(setup: Setup, s: State, call: nat, s': State)
    requires PcOk(setup, s, call) && Step(setup, s, call, s')
    ensures forall ino <- s.inodes | !(s.At(call).Holds() && ino == s.At(call).ino) ::
              ino in s'.inodes && s'.inodes[ino] == s.inodes[ino]
    ensures forall ino <- s.inodes :: ino in s'.inodes
  {
    hide Snapshot, PcOk;
  }

  lemma StepKeepsOtherCalls(setup: Setup, s: State, call: nat, s': State)
    requires PcOk(setup, s, call) && Step(setup, s, call, s')
    ensures s'.history == s.history + (if s'.At(call).Done? then [call] else [])
    ensures forall other | other != call :: s'.At(other) == s.At(other)
  {
    hide Snapshot, PcOk;
  }

  lemma StepKeepsDestinationName(setup: Setup, s: State, call: nat, s': State)
    requires setup.Valid() && PcOk(setup, s, call) && Step(setup, s, call, s') && !s'.At(call).Done?
    ensures setup.path in s.names <==> setup.path in s'.names
    ensures setup.path in s.names ==> s'.names[setup.path] == s.names[setup.path]
  {
    hide Snapshot, PcOk;
    assert setup.temp(call) != setup.path;
  }

  /**
   Main result: a step changes nothing but the call's own temporary file, which it created itself, and, when the call
   completes, the name of the destination. So a call that fails leaves the destination as it found it.
   */
  lemma StepTouchesOnlyItsOwn(setup: Setup, s: State, call: nat, s': State)
    requires Inv(setup, s) && Step(setup, s, call, s')
    ensures forall name <- s.names | name != setup.path && name != setup.temp(call) ::
              name in s'.names && s'.names[name] == s.names[name]
    ensures forall name <- s'.names | name != setup.path && name != setup.temp(call) :: name in s.names
    ensures setup.temp(call) in s.names && !s.At(call).Holds() ==>
              setup.temp(call) in s'.names && s'.names[setup.temp(call)] == s.names[setup.temp(call)]
    ensures forall ino <- s.inodes | !(s.At(call).Holds() && ino == s.At(call).ino) ::
              ino in s'.inodes && s'.inodes[ino] == s.inodes[ino]
    ensures !s'.At(call).Done? ==> FileAt(s', setup.path) == FileAt(s, setup.path)
    ensures !s'.At(call).Done? && setup.path in s.names
            ==> setup.path in s'.names && s'.names[setup.path] == s.names[setup.path]
    ensures s'.history == s.history + (if s'.At(call).Done? then [call] else [])
    ensures forall other | other != call :: s'.At(other) == s.At(other)
  {
    hide Step;
    CallIsOk(setup, s, call);
    StepKeepsOtherNames(setup, s, call, s');
    StepKeepsOtherFiles(setup, s, call, s');
    StepKeepsOtherCalls(setup, s, call, s');
    if !s'.At(call).Done? {
      StepKeepsDestinationName(setup, s, call, s');
    }
  }

  /** What a call still has before it, at most. */
  function Left(setup: Setup, call: nat, pc: Pc): int {
    var length := |setup.contents(call)|;
    match pc
    case Idle => length + 6
    case Looked(_) => length + 5
    case Created(_, _) => length + 4
    case Writing(_, _, written) => length - written + 3
    case Flushed(_, _) => 2
    case Broken(_) => 1
    case Failed => 0
    case Done => 0
  }

  function StepsOf(who: seq<nat>, call: nat): nat {
    if who == [] then 0
    else StepsOf(who[..|who| - 1], call) + if who[|who| - 1] == call then 1 else 0
  }

  lemma StepLeavesLess(setup: Setup, s: State, call: nat, s': State)
    requires Inv(setup, s) && Step(setup, s, call, s')
    ensures Left(setup, call, s'.At(call)) < Left(setup, call, s.At(call))
    ensures forall other | other != call :: s'.At(other) == s.At(other)
  {
    hide Snapshot, Kept;
    assert PcOk(setup, s, call);
  }

  /** Whatever the others do, a call takes a bounded number of steps. */
  lemma {:induction false} CallsAreBounded(setup: Setup, states: seq<State>, who: seq<nat>, call: nat)
    requires Run(setup, states, who) && Inv(setup, states[0])
    ensures StepsOf(who, call) + Left(setup, call, states[|who|].At(call)) <= Left(setup, call, states[0].At(call))
    ensures Left(setup, call, states[|who|].At(call)) >= 0
    decreases |who|
  {
    hide Step;
    if who == [] {
      assert PcOk(setup, states[0], call);
    } else {
      var n := |who| - 1;
      assert Run(setup, states[..n + 1], who[..n]);
      CallsAreBounded(setup, states[..n + 1], who[..n], call);
      RunKeepsInv(setup, states, who);
      StepLeavesLess(setup, states[n], who[n], states[n + 1]);
      assert PcOk(setup, states[n + 1], call);
    }
  }

  /** The call tried to remove its temporary file and could not. */
  ghost predicate RemovalFailed(setup: Setup, states: seq<State>, who: seq<nat>, call: nat)
    requires Run(setup, states, who)
  {
    exists i | 0 <= i < |who| ::
      who[i] == call && states[i].At(call).Broken? && setup.temp(call) in states[i + 1].names
  }

  lemma RemovalFailedSoFar(setup: Setup, states: seq<State>, who: seq<nat>, call: nat)
    requires Run(setup, states, who) && who != []
    ensures var n := |who| - 1;
            && Run(setup, states[..n + 1], who[..n])
            && (RemovalFailed(setup, states, who, call) <==>
                  || RemovalFailed(setup, states[..n + 1], who[..n], call)
                  || (who[n] == call && states[n].At(call).Broken? && setup.temp(call) in states[n + 1].names))
  {
    hide Step;
    var n := |who| - 1;
    if i :| 0 <= i < n && who[i] == call && states[i].At(call).Broken? && setup.temp(call) in states[i + 1].names {
      assert who[..n][i] == call && states[..n + 1][i] == states[i] && states[..n + 1][i + 1] == states[i + 1];
    }
  }

  /** What a step of the call does to its temporary name. */
  lemma StepOnTemp(setup: Setup, s: State, call: nat, s': State)
    requires Inv(setup, s) && Step(setup, s, call, s')
    ensures setup.temp(call) in s'.names <==>
              s'.At(call).Holds() || (setup.temp(call) in s.names && (!s.At(call).Holds() || s.At(call).Broken?)
                                      && (s.At(call).Broken? ==> setup.temp(call) in s'.names))
    ensures s.At(call).Holds() || s'.At(call).Holds() ==> setup.temp(call) !in setup.names
    ensures s'.At(call).Done? ==> s.At(call).Holds()
    ensures s'.At(call).Holds() && !s.At(call).Holds() ==> setup.temp(call) !in s.names
    ensures s.At(call).Broken? ==> s'.At(call).Failed?
    ensures !s.At(call).Failed? && !s.At(call).Done?
  {
    hide Snapshot;
    assert PcOk(setup, s, call);
    assert setup.temp(call) != setup.path;
    assert Kept(setup, s);
  }

  /**
   Main result: a temporary name that no other call uses is there exactly while its call owns the file, or if it was
   there at the start, or if the call failed and so did its attempt to remove the file. A completed call leaves none.
   */
  lemma {:induction false} NoTempIsLeft(setup: Setup, states: seq<State>, who: seq<nat>, call: nat)
    requires setup.Valid() && Run(setup, states, who) && states[0] == setup.Start()
    requires forall other | other != call :: setup.temp(other) != setup.temp(call)
    ensures var s := states[|who|];
            && (setup.temp(call) in s.names <==>
                  s.At(call).Holds() || setup.temp(call) in setup.names || RemovalFailed(setup, states, who, call))
            && (RemovalFailed(setup, states, who, call) ==> s.At(call).Failed?)
            && (s.At(call).Done? ==> setup.temp(call) !in s.names)
            && (s.At(call).Holds() || s.At(call).Done? ==> setup.temp(call) !in setup.names)
    decreases |who|
  {
    hide Step, Inv;
    StartInv(setup);
    if who != [] {
      var n := |who| - 1;
      RemovalFailedSoFar(setup, states, who, call);
      NoTempIsLeft(setup, states[..n + 1], who[..n], call);
      RunKeepsInv(setup, states, who);
      StepTouchesOnlyItsOwn(setup, states[n], who[n], states[n + 1]);
      if who[n] == call {
        StepOnTemp(setup, states[n], call, states[n + 1]);
      } else {
        assert setup.temp(call) != setup.path;
      }
    }
  }

  // ---- The call itself ----

  /** What the other calls may do while this one is not looking. */
  ghost predicate Rely(setup: Setup, call: nat, s: State, s': State) {
    && Inv(setup, s') && s'.At(call) == s.At(call) && s.history <= s'.history
    && (call in s'.history ==> call in s.history)
  }

  /** Any steps of other calls are such. */
  lemma {:induction false} OthersRely(setup: Setup, call: nat, states: seq<State>, who: seq<nat>)
    requires Run(setup, states, who) && Inv(setup, states[0]) && call !in who
    ensures Rely(setup, call, states[0], states[|who|])
    decreases |who|
  {
    hide Inv, Step;
    if who != [] {
      var n := |who| - 1;
      assert Run(setup, states[..n + 1], who[..n]);
      assert who[n] in who;
      OthersRely(setup, call, states[..n + 1], who[..n]);
      StepKeepsInv(setup, states[n], who[n], states[n + 1]);
      StepTouchesOnlyItsOwn(setup, states[n], who[n], states[n + 1]);
    }
  }

  /** The directory as one call sees it: the others take their turns before each of its system calls. */
  class Directory {
    const setup: Setup
    const call: nat
    const others: nat -> State -> State
    const faults: nat -> bool
    const inos: nat -> nat
    const amounts: nat -> nat
    var state: State
    var turn: nat

    constructor (setup: Setup, call: nat, others: nat -> State -> State, faults: nat -> bool, inos: nat -> nat,
                 amounts: nat -> nat, state: State)
      ensures this.setup == setup && this.call == call && this.others == others && this.state == state && turn == 0
      ensures this.faults == faults && this.inos == inos && this.amounts == amounts
    {
      this.setup, this.call, this.others, this.faults := setup, call, others, faults;
      this.inos, this.amounts, this.state, turn := inos, amounts, state, 0;
    }

    ghost predicate Fair()
    {
      forall k: nat, s: State | Inv(setup, s) :: Rely(setup, call, s, others(k)(s))
    }

    ghost predicate Valid()
      reads this
    {
      Fair() && Inv(setup, state)
    }

    ghost predicate NoFaults(start: nat, end: nat) {
      forall k | start <= k < end :: !faults(k)
    }

    lemma NoFaultsOn(start: nat, middle: nat, end: nat)
      requires start <= middle <= end
      ensures NoFaults(start, end) <==> NoFaults(start, middle) && NoFaults(middle, end)
      ensures NoFaults(start, start) && (NoFaults(start, start + 1) <==> !faults(start))
      ensures NoFaults(middle, middle + 1) <==> !faults(middle)
    {
    }

    /** The others' turn; whether the system call that follows is made to fail. */
    method Turn() returns (fault: bool)
      requires Valid()
      modifies this
      ensures Valid() && Rely(setup, call, old(state), state) && turn == old(turn) + 1
      ensures state == others(old(turn))(old(state)) && fault == faults(old(turn))
    {
      state := others(turn)(state);
      fault := faults(turn);
      turn := turn + 1;
    }

    /** A step of this call, as the machine has it. */
    method Take(next: State)
      requires Valid() && Step(setup, state, call, next)
      modifies this`state
      ensures Valid() && state == next
    {
      StepKeepsInv(setup, state, call, next);
      state := next;
    }

    method Metadata() returns (mode: Option<nat>)
      requires Valid() && state.At(call).Idle?
      modifies this
      ensures Valid() && old(state.history) <= state.history && call !in state.history
      ensures state.At(call) == match mode case Some(m) => Looked(m) case None => Failed
      ensures turn == old(turn) + 1
      ensures if faults(old(turn)) || Initial(setup).None? then mode.None?
              else mode == Some(Initial(setup).value.mode) && state == Looking(old(turn), old(state), mode.value)
    {
      hide Inv, Fair, Snapshot;
      var fault := Turn();
      NotYet(setup, state, call);
      InitialStays(setup, state);
      if fault || setup.path !in state.names || state.names[setup.path] !in state.inodes {
        Take(state.Moved(call, Failed));
        return None;
      }
      mode := Some(state.inodes[state.names[setup.path]].mode);
      Take(state.Moved(call, Looked(mode.value)));
    }

    /** What the call leaves when it has looked at the destination. */
    ghost function Looking(turn: nat, s: State, mode: nat): State {
      others(turn)(s).Moved(call, Looked(mode))
    }

    /** The call may create its temporary file: the name is free, and so is the number the file gets. */
    ghost predicate Free(turn: nat, s: State) {
      var before := others(turn)(s);
      setup.temp(call) !in before.names && inos(turn) !in before.inodes
    }

    /** `create_new` with mode 0600. */
    method CreateNew(mode: nat) returns (ino: Option<nat>)
      requires Valid() && state.At(call) == Looked(mode)
      modifies this
      ensures Valid() && old(state.history) <= state.history && call !in state.history
      ensures state.At(call) == match ino case Some(i) => Created(i, mode) case None => Failed
      ensures turn == old(turn) + 1
      ensures ino.Some? <==> !faults(old(turn)) && Free(old(turn), old(state))
    {
      hide Inv, Fair;
      var fault := Turn();
      NotYet(setup, state, call);
      var given := inos(turn - 1);
      if fault || setup.temp(call) in state.names || given in state.inodes {
        Take(state.Moved(call, Failed));
        return None;
      }
      ino := Some(given);
      Take(state.Moved(call, Created(given, mode))
                .(names := state.names[setup.temp(call) := given],
                  inodes := state.inodes[given := File("", TEMP_MODE)]));
    }

    method SetPermissions(ino: nat, mode: nat) returns (ok: bool)
      requires Valid() && state.At(call) == Created(ino, mode)
      modifies this
      ensures Valid() && old(state.history) <= state.history && call !in state.history
      ensures state.At(call) == if ok then Writing(ino, mode, 0) else Broken(ino)
      ensures turn == old(turn) + 1 && ok == !faults(old(turn))
    {
      hide Inv, Fair;
      var fault := Turn();
      NotYet(setup, state, call);
      ok := !fault;
      if fault {
        Take(state.Moved(call, Broken(ino)));
      } else {
        Take(state.Moved(call, Writing(ino, mode, 0))
             .(inodes := state.inodes[ino := state.inodes[ino].(mode := mode)]));
      }
    }

    /** One write of some of what is left, at least a character; how far the file then goes. */
    method Write(ino: nat, mode: nat, written: nat) returns (upto: Option<nat>)
      requires Valid() && state.At(call) == Writing(ino, mode, written) && written < |setup.contents(call)|
      modifies this
      ensures Valid() && old(state.history) <= state.history && call !in state.history
      ensures state.At(call) == match upto case Some(w) => Writing(ino, mode, w) case None => Broken(ino)
      ensures upto.Some? ==> written < upto.value <= |setup.contents(call)|
      ensures turn == old(turn) + 1 && upto.Some? == !faults(old(turn))
    {
      hide Inv, Fair;
      var fault := Turn();
      NotYet(setup, state, call);
      if fault {
        Take(state.Moved(call, Broken(ino)));
        return None;
      }
      var contents := setup.contents(call);
      var more := written + 1 + amounts(turn) % (|contents| - written);
      assert written < more <= |contents|;
      upto := Some(more);
      Take(state.Moved(call, Writing(ino, mode, more))
                .(inodes := state.inodes[ino := state.inodes[ino].Appended(contents[written..more])]));
    }

    /** `write_all`: writes until nothing is left or one fails. */
    method WriteAll(ino: nat, mode: nat) returns (ok: bool)
      requires Valid() && state.At(call) == Writing(ino, mode, 0)
      modifies this
      ensures Valid() && old(state.history) <= state.history && call !in state.history
      ensures state.At(call) == if ok then Writing(ino, mode, |setup.contents(call)|) else Broken(ino)
      ensures old(turn) <= turn && ok == NoFaults(old(turn), turn)
    {
      hide Inv, Fair, Step, NoFaults;
      NoFaultsOn(turn, turn, turn);
      NotYet(setup, state, call);
      var written := 0;
      while written < |setup.contents(call)|
        invariant written <= |setup.contents(call)|
        invariant Valid() && old(state.history) <= state.history && call !in state.history
        invariant state.At(call) == Writing(ino, mode, written)
        invariant old(turn) <= turn && NoFaults(old(turn), turn)
      {
        NoFaultsOn(old(turn), turn, turn + 1);
        var upto := Write(ino, mode, written);
        if upto.None? {
          return false;
        }
        written := upto.value;
      }
      ok := true;
    }

    method Flush(ino: nat, mode: nat) returns (ok: bool)
      requires Valid() && state.At(call) == Writing(ino, mode, |setup.contents(call)|)
      modifies this
      ensures Valid() && old(state.history) <= state.history && call !in state.history
      ensures state.At(call) == if ok then Flushed(ino, mode) else Broken(ino)
      ensures turn == old(turn) + 1 && ok == !faults(old(turn))
    {
      hide Inv, Fair;
      var fault := Turn();
      NotYet(setup, state, call);
      ok := !fault;
      Take(state.Moved(call, if fault then Broken(ino) else Flushed(ino, mode)));
    }

    method Rename(ino: nat, mode: nat) returns (ok: bool)
      requires Valid() && state.At(call) == Flushed(ino, mode)
      modifies this
      ensures Valid() && old(state.history) <= state.history
      ensures ok ==> state.At(call).Done? && call in state.history && Initial(setup).Some?
      ensures ok ==> FileAt(state, setup.path) == Some(File(setup.contents(call), Initial(setup).value.mode))
      ensures !ok ==> state.At(call) == Broken(ino) && call !in state.history
      ensures turn == old(turn) + 1 && ok == !faults(old(turn)) && (ok ==> setup.temp(call) !in state.names)
    {
      hide Inv, Fair;
      var fault := Turn();
      NotYet(setup, state, call);
      ok := !fault;
      if fault {
        Take(state.Moved(call, Broken(ino)));
      } else {
        Take(State((state.names - {setup.temp(call)})[setup.path := ino], state.inodes, state.calls[call := Done],
                   state.history + [call]));
      }
    }

    method RemoveFile()
      requires Valid() && state.At(call).Broken?
      modifies this
      ensures Valid() && old(state.history) <= state.history && call !in state.history && state.At(call).Failed?
      ensures turn == old(turn) + 1 && (!faults(old(turn)) ==> setup.temp(call) !in state.names)
    {
      hide Inv, Fair;
      var fault := Turn();
      NotYet(setup, state, call);
      if fault {
        Take(state.Moved(call, Failed));
      } else {
        Take(state.Moved(call, Failed).(names := state.names - {setup.temp(call)}));
      }
    }

    /** From the temporary file to the destination. */
    method Fill(ino: nat, mode: nat) returns (ok: bool)
      requires Valid() && state.At(call) == Created(ino, mode)
      modifies this
      ensures Valid() && old(state.history) <= state.history
      ensures ok ==> state.At(call).Done? && call in state.history && Initial(setup).Some?
      ensures ok ==> FileAt(state, setup.path) == Some(File(setup.contents(call), Initial(setup).value.mode))
      ensures !ok ==> state.At(call) == Broken(ino) && call !in state.history
      ensures old(turn) <= turn && ok == NoFaults(old(turn), turn) && (ok ==> setup.temp(call) !in state.names)
    {
      hide *;
      NoFaultsOn(turn, turn, turn);
      ok := SetPermissions(ino, mode);
      NoFaultsOn(old(turn), turn, turn);
      if ok {
        ghost var middle := turn;
        ok := WriteAll(ino, mode);
        NoFaultsOn(old(turn), middle, turn);
      }
      if ok {
        ghost var middle := turn;
        ok := Flush(ino, mode);
        NoFaultsOn(old(turn), middle, turn);
      }
      if ok {
        ghost var middle := turn;
        ok := Rename(ino, mode);
        NoFaultsOn(old(turn), middle, turn);
      }
    }

    /**
     `write_temp_then_rename`. Main result: among others that do the same, the call puts its whole contents in place and
     says so, or says that it failed and was never in place. It succeeds exactly when there is a destination, the
     temporary name is free and no system call fails, and leaves a temporary file only if removing it fails.
     */
    method WriteTempThenRename() returns (ok: bool)
      requires Valid() && state.At(call).Idle?
      modifies this
      ensures Valid() && old(state.history) <= state.history
      ensures ok <==> state.At(call).Done?
      ensures !ok ==> state.At(call).Failed? && call !in state.history
      ensures ok ==> call in state.history && Initial(setup).Some?
      ensures ok ==> FileAt(state, setup.path) == Some(File(setup.contents(call), Initial(setup).value.mode))
      ensures old(turn) < turn
      ensures ok <==> && Initial(setup).Some?
                      && Free(old(turn) + 1, Looking(old(turn), old(state), Initial(setup).value.mode))
                      && NoFaults(old(turn), turn)
      ensures ok ==> setup.temp(call) !in state.names
      ensures && Initial(setup).Some? && NoFaults(old(turn), old(turn) + 2)
              && Free(old(turn) + 1, Looking(old(turn), old(state), Initial(setup).value.mode))
              && setup.temp(call) in state.names
              ==> faults(turn - 1)
    {
      hide *;
      NoFaultsOn(turn, turn, turn);
      NoFaultsOn(turn, turn + 1, turn + 2);
      var mode := Metadata();
      if mode.None? {
        return false;
      }
      var ino := CreateNew(mode.value);
      if ino.None? {
        return false;
      }
      ghost var filling := turn;
      ok := Fill(ino.value, mode.value);
      NoFaultsOn(old(turn), filling, turn);
      if !ok {
        ghost var removing := turn;
        RemoveFile();
        NoFaultsOn(old(turn), removing, turn);
      }
    }
  }

  /** A call that has not completed is not among those that have, and its own file is there and holds what it wrote. */
  lemma NotYet(setup: Setup, s: State, call: nat)
    requires Inv(setup, s)
    ensures !s.At(call).Done? ==> call !in s.history
    ensures setup.temp(call) != setup.path
    ensures s.At(call).Holds() ==> s.At(call).ino in s.inodes
    ensures s.At(call).Writing? ==> s.At(call).written <= |setup.contents(call)|
    ensures s.At(call).Flushed? ==> s.inodes[s.At(call).ino] == File(setup.contents(call), s.At(call).mode)
    ensures s.At(call).Flushed? ==> Initial(setup).Some? && s.At(call).mode == Initial(setup).value.mode
  {
    assert PcOk(setup, s, call);
  }

  lemma InitialStays(setup: Setup, s: State)
    requires Inv(setup, s)
    ensures FileAt(s, setup.path).Some? <==> Initial(setup).Some?
    ensures Initial(setup).Some? ==> FileAt(s, setup.path).value.mode == Initial(setup).value.mode
  {
  }

  // ---- Temporary names ----

  /** `.{file_name}.tmp-{pid}-{counter}`, in the destination's directory. */
  function TempName(file: string, pid: nat, counter: nat): string {
    "." + file + ".tmp-" + (Text(pid) + "-" + Text(counter))
  }

  class TempNames {
    var counter: nat

    constructor ()
      ensures counter == 0
    {
      counter := 0;
    }

    /** `temp_path_for`: the counter is fetched and raised in one step. */
    method TempPathFor(file: string, pid: nat) returns (name: string)
      modifies this
      ensures name == TempName(file, pid, old(counter)) && counter == old(counter) + 1
    {
      name := TempName(file, pid, counter);
      counter := counter + 1;
    }
  }

  /** No two calls of one process, nor of two processes, share a temporary name, and none is the destination's. */
  lemma TempNamesAreDistinct(file: string, pid: nat, counter: nat, otherPid: nat, otherCounter: nat)
    ensures TempName(file, pid, counter) == TempName(file, otherPid, otherCounter)
            <==> pid == otherPid && counter == otherCounter
    ensures TempName(file, pid, counter) != file && "." + file + ".tmp-" <= TempName(file, pid, counter)
  {
    var start := "." + file + ".tmp-";
    var a, b := Text(pid) + "-" + Text(counter), Text(otherPid) + "-" + Text(otherCounter);
    assert |TempName(file, pid, counter)| > |file|;
    if start + a == start + b {
      assert a == (start + a)[|start|..] == (start + b)[|start|..] == b;
      DashSplits(Text(pid), Text(counter));
      DashSplits(Text(otherPid), Text(otherCounter));
      TextInjective(pid, otherPid);
      TextInjective(counter, otherCounter);
    }
  }

  lemma DashSplits(a: string, b: string)
    requires AllDigits(a)
    ensures IndexOf(a + "-" + b, '-') == |a| && (a + "-" + b)[..|a|] == a && (a + "-" + b)[|a| + 1..] == b
  {
    assert (a + "-" + b)[..|a|] == a;
    IndexOfIs(a + "-" + b, '-', |a|);
  }
}
