/**
 Pidfile ownership in native/iperf3rs_cli.c: `iperf3rs_pidfile_checked`, and the removal in
 `iperf3rs_cli_cleanup`. The environment may change the file system before every system call.
 */
module Pidfile {
  import opened Decimal
  import opened Wrappers

  datatype Errno = ENOENT | EEXIST | EINVAL | ESRCH | EBUSY | EIO | EOVERFLOW | ELOOP | EISDIR | OtherErrno(code: int)

  datatype Kind = Regular | Symlink | Directory | OtherKind

  datatype Inode = Inode(kind: Kind, bytes: string)

  /** Paths name inodes; an inode number stands for the pair `st_dev`, `st_ino`. */
  datatype Files = Files(names: map<string, nat>, inodes: map<nat, Inode>)

  /** What this process itself read, probed or changed. */
  datatype Event =
    | ReadBytes(ino: nat, data: string)
    | Probed(pid: nat, error: Option<Errno>)
    | Created(ino: nat)
    | Truncated(ino: nat)
    | Wrote(ino: nat, text: string, found: Files)
    | Unlinked(ino: nat)

  /** What a write that found these files left. */
  function After(write: Event): Files
    requires write.Wrote? && write.ino in write.found.inodes
  {
    var inode := write.found.inodes[write.ino];
    write.found.(inodes := write.found.inodes[write.ino := Written(inode, write.text)])
  }

  /** Nothing differs but the bytes of files. */
  ghost predicate SameShape(f: Files, g: Files) {
    && f.names == g.names && f.inodes.Keys == g.inodes.Keys
    && forall ino <- f.inodes :: f.inodes[ino].kind == g.inodes[ino].kind
  }

  /** The inodes whose bytes differ, or which are gone. */
  function Changed(f: Files, g: Files): set<nat> {
    set ino | ino in f.inodes && (ino !in g.inodes || g.inodes[ino].bytes != f.inodes[ino].bytes)
  }

  /** `open`, on a file system that does not fail it; `ino` is the number a created inode gets. */
  function Opened(f: Files, path: string, writing: bool, create: bool, ino: nat): Result<nat, Errno> {
    if create then
      if path in f.names then Err(EEXIST) else if ino in f.inodes then Err(EIO) else Ok(ino)
    else if path !in f.names || f.names[path] !in f.inodes then Err(ENOENT)
    else if f.inodes[f.names[path]].kind == Symlink then Err(ELOOP)
    else if writing && f.inodes[f.names[path]].kind == Directory then Err(EISDIR)
    else Ok(f.names[path])
  }

  /** What a `read` transfers. One at a position before the end returns at least one byte. */
  function ReadAt(bytes: string, offset: nat, max: nat, cut: nat): (data: string)
    ensures |data| <= max
  {
    var available := if offset <= |bytes| then bytes[offset..] else "";
    var wanted := if max <= |available| then max else |available|;
    available[..if 0 < cut < wanted then cut else wanted]
  }

  /**
   System calls. Before each of them the environment acts; `fault` makes a call fail, `short` cuts a
   transfer, `newIno` picks the number of a created inode, and `probe` answers `kill(pid, 0)`.
   */
  class Os {
    const environment: nat -> Files -> Files
    const fault: nat -> Option<Errno>
    const short: nat -> nat
    const newIno: nat -> nat
    const probe: (nat, nat) -> Option<Errno>
    var files: Files
    var calls: nat
    ghost var log: seq<Event>
    /** The inodes whose bytes some step of the environment has changed. */
    ghost var disturbed: set<nat>

    constructor (environment: nat -> Files -> Files, fault: nat -> Option<Errno>, short: nat -> nat,
                 newIno: nat -> nat, probe: (nat, nat) -> Option<Errno>, files: Files)
      ensures this.files == files && calls == 0 && log == [] && disturbed == {}
      ensures this.environment == environment && this.fault == fault && this.short == short
      ensures this.newIno == newIno && this.probe == probe
    {
      this.environment, this.fault, this.short, this.newIno, this.probe := environment, fault, short, newIno, probe;
      this.files, calls, log, disturbed := files, 0, [], {};
    }

    /** Nobody else touches the file system. */
    ghost predicate Quiet() {
      forall k: nat, f: Files :: environment(k)(f) == f
    }

    ghost predicate QuietUntil(end: nat) {
      forall k: nat, f: Files | k < end :: environment(k)(f) == f
    }

    /** Others change the bytes of files at most. */
    ghost predicate Gentle() {
      forall k: nat, f: Files :: SameShape(f, environment(k)(f))
    }

    /** No call fails or transfers less than it was asked to. */
    ghost predicate Faultless() {
      forall k: nat :: fault(k).None? && short(k) >= BUFFER
    }

    /** Files that the environment's turn before a call can have brought about. */
    ghost predicate Made(call: nat, found: Files) {
      exists f: Files :: environment(call)(f) == found
    }

    /** The environment's turn, and whether the call that follows is made to fail. */
    method Turn() returns (error: Option<Errno>)
      modifies this
      ensures files == environment(old(calls))(old(files)) && calls == old(calls) + 1 && log == old(log)
      ensures error == fault(old(calls)) && disturbed == old(disturbed) + Changed(old(files), files)
    {
      var next := environment(calls)(files);
      disturbed := disturbed + Changed(files, next);
      files := next;
      error := fault(calls);
      calls := calls + 1;
    }

    method Open(path: string, writing: bool, create: bool) returns (r: Result<nat, Errno>)
      modifies this
      ensures var before := environment(old(calls))(old(files));
              && calls == old(calls) + 1 && disturbed == old(disturbed) + Changed(old(files), before)
              && r == (if fault(old(calls)).Some? then Err(fault(old(calls)).value)
                       else Opened(before, path, writing, create, newIno(old(calls))))
              && (if create && r.Ok? then
                    && files == Files(before.names[path := r.value], before.inodes[r.value := Inode(Regular, "")])
                    && log == old(log) + [Created(r.value)]
                  else files == before && log == old(log))
    {
      var error := Turn();
      if error.Some? {
        return Err(error.value);
      }
      r := Opened(files, path, writing, create, newIno(calls - 1));
      if create && r.Ok? {
        files := Files(files.names[path := r.value], files.inodes[r.value := Inode(Regular, "")]);
        log := log + [Created(r.value)];
      }
    }

    method Fstat(ino: nat) returns (r: Result<Kind, Errno>)
      modifies this
      ensures files == environment(old(calls))(old(files)) && calls == old(calls) + 1 && log == old(log)
      ensures disturbed == old(disturbed) + Changed(old(files), files)
      ensures r == if fault(old(calls)).Some? then Err(fault(old(calls)).value)
                   else if ino !in files.inodes then Err(EIO)
                   else Ok(files.inodes[ino].kind)
    {
      var error := Turn();
      if error.Some? {
        return Err(error.value);
      }
      if ino !in files.inodes {
        return Err(EIO);
      }
      return Ok(files.inodes[ino].kind);
    }

    method Read(ino: nat, offset: nat, max: nat) returns (r: Result<string, Errno>)
      modifies this
      ensures files == environment(old(calls))(old(files)) && calls == old(calls) + 1
      ensures disturbed == old(disturbed) + Changed(old(files), files)
      ensures r == if fault(old(calls)).Some? then Err(fault(old(calls)).value)
                   else if ino !in files.inodes then Err(EIO)
                   else Ok(ReadAt(files.inodes[ino].bytes, offset, max, short(old(calls))))
      ensures log == old(log) + if r.Ok? then [ReadBytes(ino, r.value)] else []
    {
      var error := Turn();
      if error.Some? {
        return Err(error.value);
      }
      if ino !in files.inodes {
        return Err(EIO);
      }
      r := Ok(ReadAt(files.inodes[ino].bytes, offset, max, short(calls - 1)));
      log := log + [ReadBytes(ino, r.value)];
    }

    method Kill(pid: nat) returns (error: Option<Errno>)
      modifies this
      ensures files == environment(old(calls))(old(files)) && calls == old(calls) + 1
      ensures disturbed == old(disturbed) + Changed(old(files), files)
      ensures error == probe(old(calls), pid) && log == old(log) + [Probed(pid, error)]
    {
      var _ := Turn();
      error := probe(calls - 1, pid);
      log := log + [Probed(pid, error)];
    }

    method Truncate(ino: nat) returns (error: Option<Errno>)
      modifies this
      ensures var before := environment(old(calls))(old(files));
              && calls == old(calls) + 1 && disturbed == old(disturbed) + Changed(old(files), before)
              && error == (if fault(old(calls)).Some? then fault(old(calls))
                           else if ino !in before.inodes then Some(EIO)
                           else None)
              && (if error.None? then
                    && files == before.(inodes := before.inodes[ino := before.inodes[ino].(bytes := "")])
                    && log == old(log) + [Truncated(ino)]
                  else files == before && log == old(log))
    {
      error := Turn();
      if error.None? {
        if ino !in files.inodes {
          return Some(EIO);
        }
        files := files.(inodes := files.inodes[ino := files.inodes[ino].(bytes := "")]);
        log := log + [Truncated(ino)];
      }
    }

    /** Writes at the start of the file and may write less than asked. */
    method Write(ino: nat, text: string) returns (r: Result<nat, Errno>)
      modifies this
      ensures var before := environment(old(calls))(old(files));
              && calls == old(calls) + 1 && disturbed == old(disturbed) + Changed(old(files), before)
              && r == (if fault(old(calls)).Some? then Err(fault(old(calls)).value)
                       else if ino !in before.inodes then Err(EIO)
                       else Ok(if short(old(calls)) < |text| then short(old(calls)) else |text|))
              && (if r.Ok? then
                    && files == After(Wrote(ino, text[..r.value], before))
                    && log == old(log) + [Wrote(ino, text[..r.value], before)]
                  else files == before && log == old(log))
    {
      var error := Turn();
      if error.Some? {
        return Err(error.value);
      }
      if ino !in files.inodes {
        return Err(EIO);
      }
      var cut := short(calls - 1);
      var n := if cut < |text| then cut else |text|;
      log := log + [Wrote(ino, text[..n], files)];
      files := files.(inodes := files.inodes[ino := Written(files.inodes[ino], text[..n])]);
      return Ok(n);
    }

    method Close() returns (error: Option<Errno>)
      modifies this
      ensures files == environment(old(calls))(old(files)) && calls == old(calls) + 1 && log == old(log)
      ensures error == fault(old(calls)) && disturbed == old(disturbed) + Changed(old(files), files)
    {
      error := Turn();
    }

    method Lstat(path: string) returns (r: Result<nat, Errno>)
      modifies this
      ensures files == environment(old(calls))(old(files)) && calls == old(calls) + 1 && log == old(log)
      ensures r == if fault(old(calls)).Some? then Err(fault(old(calls)).value)
                   else if path in files.names then Ok(files.names[path])
                   else Err(ENOENT)
    {
      var error := Turn();
      if error.Some? {
        return Err(error.value);
      }
      return if path in files.names then Ok(files.names[path]) else Err(ENOENT);
    }

    method Unlink(path: string) returns (error: Option<Errno>)
      modifies this
      ensures var before := environment(old(calls))(old(files));
              && calls == old(calls) + 1
              && error == (if fault(old(calls)).Some? then fault(old(calls))
                           else if path !in before.names then Some(ENOENT)
                           else None)
              && (if error.None? then
                    && files == before.(names := before.names - {path})
                    && log == old(log) + [Unlinked(before.names[path])]
                  else files == before && log == old(log))
    {
      error := Turn();
      if error.None? {
        if path !in files.names {
          return Some(ENOENT);
        }
        log := log + [Unlinked(files.names[path])];
        files := files.(names := files.names - {path});
      }
    }
  }

  /** Writing at the start keeps what lies beyond the text. */
  function Written(inode: Inode, text: string): Inode {
    inode.(bytes := if |text| <= |inode.bytes| then text + inode.bytes[|text|..] else text)
  }

  // ---- What a stale pidfile looks like ----

  const PID_MAX: nat := 0x7fff_ffff
  const BUFFER: nat := 15

  function Chomp(data: string): string {
    if data != "" && data[|data| - 1] == '\n' then data[..|data| - 1] else data
  }

  /** The pid a pidfile's bytes name: decimal digits, one optional final newline, positive, in range. */
  function PidOf(data: string): Option<nat> {
    var digits := Chomp(data);
    if digits != "" && AllDigits(digits) && 0 < Value(digits) <= PID_MAX then Some(Value(digits)) else None
  }

  /** Only a process that does not exist makes a pidfile stale; anything else is the error to report. */
  function Verdict(probe: Option<Errno>): Option<Errno> {
    if probe.None? then Some(EEXIST) else if probe == Some(ESRCH) then None else probe
  }

  /** What is wrong with taking over a file of these bytes, when the pid they name is probed by call number `call`. */
  function Judgement(bytes: string, probe: (nat, nat) -> Option<Errno>, call: nat): Option<Errno> {
    if |bytes| >= BUFFER || PidOf(bytes).None? then Some(EINVAL) else Verdict(probe(call, PidOf(bytes).value))
  }

  /** Every file of `f` that the environment left alone, but for the owned one, has the bytes it had. */
  ghost predicate Untouched(f: Files, g: Files, disturbed: set<nat>, owned: Option<nat>) {
    forall ino <- f.inodes | ino !in disturbed && owned != Some(ino) ::
      ino in g.inodes && g.inodes[ino].bytes == f.inodes[ino].bytes
  }

  lemma UntouchedThen(f: Files, g: Files, h: Files, d: set<nat>, e: set<nat>, owned: Option<nat>)
    requires Untouched(f, g, d, None) || Untouched(f, g, d, owned)
    requires Untouched(g, h, e, None) || Untouched(g, h, e, owned)
    requires d <= e
    ensures Untouched(f, h, e, owned)
  {
  }

  lemma UntouchedItself(f: Files, disturbed: set<nat>)
    ensures forall owned :: Untouched(f, f, disturbed, owned)
  {
  }

  /** A regular file of at most 14 bytes that name a pid. */
  predicate WellFormed(f: Files, ino: nat) {
    && ino in f.inodes && f.inodes[ino].kind == Regular
    && |f.inodes[ino].bytes| <= 14 && PidOf(f.inodes[ino].bytes).Some?
  }

  /** The pid in a file: its decimal digits, leading zeros or not, with or without a newline, and no other text. */
  lemma PidOfExactly(data: string, pid: nat)
    ensures PidOf(data) == Some(pid)
            <==> && 0 < pid <= 0x7fff_ffff
                 && exists zeros: nat :: data == Zeros(zeros) + Text(pid) || data == Zeros(zeros) + Text(pid) + "\n"
  {
    hide Text, Zeros;
    if PidOf(data) == Some(pid) {
      var zeros := DigitsAreZerosAndText(Chomp(data));
      assert data == Chomp(data) || data == Chomp(data) + "\n";
    }
    if zeros: nat :| data == Zeros(zeros) + Text(pid) || data == Zeros(zeros) + Text(pid) + "\n" {
      var digits := Zeros(zeros) + Text(pid);
      ZerosCountNothing(zeros, pid);
      assert IsDigit(digits[|digits| - 1]);
      assert Chomp(data) == digits;
    }
  }

  lemma {:induction false} DigitsAreZerosAndText(digits: string) returns (zeros: nat)
    requires AllDigits(digits) && digits != "" && Value(digits) > 0
    ensures digits == Zeros(zeros) + Text(Value(digits))
  {
    var init, last := digits[..|digits| - 1], digits[|digits| - 1];
    assert digits == init + [last];
    if Value(init) == 0 {
      AllZeros(init);
      zeros := |init|;
      assert init == Zeros(zeros);
      assert Text(Value(digits)) == [last];
    } else {
      zeros := DigitsAreZerosAndText(init);
      assert Text(Value(digits)) == Text(Value(init)) + [last];
    }
  }

  lemma {:induction false} AllZeros(digits: string)
    requires AllDigits(digits) && Value(digits) == 0
    ensures forall i | 0 <= i < |digits| :: digits[i] == '0'
  {
    if digits != "" {
      var init, last := digits[..|digits| - 1], digits[|digits| - 1];
      assert Value(digits) == 10 * Value(init) + DigitValue(last);
      hide Value;
      AllZeros(init);
      assert forall i | 0 <= i < |init| :: digits[i] == init[i];
    }
  }

  lemma ZerosCountNothing(zeros: nat, n: nat)
    ensures AllDigits(Zeros(zeros) + Text(n)) && Value(Zeros(zeros) + Text(n)) == n
  {
    ValueOfText(n);
    ValueOfZeros(zeros);
    ValueOfConcat(Zeros(zeros), Text(n));
  }

  /** The inode was read to its end as a well-formed pid, and that pid was then probed as non-existent. */
  ghost predicate ProvenStale(log: seq<Event>, ino: nat) {
    exists i, j, k | 0 <= i < j < k < |log| ::
      && log[i].ReadBytes? && log[i].ino == ino
      && log[j] == ReadBytes(ino, "")
      && log[k].Probed? && log[k].error == Some(ESRCH)
      && PidOf(log[i].data) == Some(log[k].pid)
  }

  ghost predicate MayChange(log: seq<Event>, ino: nat) {
    Created(ino) in log || ProvenStale(log, ino)
  }

  lemma MayChangeMeans(log: seq<Event>)
    ensures forall ino :: ProvenStale(log, ino) || Created(ino) in log ==> MayChange(log, ino)
  {
  }

  /** Every change of a file's bytes is to a file created here, or to one proven stale before. */
  ghost predicate ChangesOnlyOwn(log: seq<Event>) {
    forall m | 0 <= m < |log| :: log[m].Truncated? || log[m].Wrote? ==> MayChange(log[..m], log[m].ino)
  }

  predicate ChangesNothing(log: seq<Event>) {
    forall m | 0 <= m < |log| :: !log[m].Truncated? && !log[m].Wrote? && !log[m].Unlinked?
  }

  predicate OnlyLooks(log: seq<Event>) {
    ChangesNothing(log) && forall m | 0 <= m < |log| :: !log[m].Created?
  }

  /** Nothing is removed, and changes are confined to the file whose ownership was taken. */
  predicate ChangesOnly(log: seq<Event>, owned: Option<nat>) {
    forall m | 0 <= m < |log| ::
      !log[m].Unlinked? && (log[m].Truncated? || log[m].Wrote? ==> owned == Some(log[m].ino))
  }

  predicate EndsWritten(log: seq<Event>, ino: nat, text: string) {
    && log != []
    && var write := log[|log| - 1];
       write.Wrote? && write.ino == ino && write.text == text && ino in write.found.inodes
  }

  /** The last call was the write that ends the log. */
  ghost predicate WrittenLast(os: Os, log: seq<Event>, calls: nat, files: Files, ino: nat, self: nat) {
    && EndsWritten(log, ino, Text(self)) && calls >= 1
    && var write := log[|log| - 1];
       os.Made(calls - 1, write.found) && files == After(write)
  }

  /** The last two calls were the write that ends the log and a close. */
  ghost predicate WrittenAndClosed(os: Os, log: seq<Event>, calls: nat, files: Files, ino: nat, self: nat) {
    && EndsWritten(log, ino, Text(self)) && calls >= 2
    && var write := log[|log| - 1];
       os.Made(calls - 2, write.found) && files == os.environment(calls - 1)(After(write))
  }

  lemma ThenClosed(os: Os, log: seq<Event>, calls: nat, files: Files, ino: nat, self: nat)
    ensures WrittenLast(os, log, calls, files, ino, self)
            ==> WrittenAndClosed(os, log, calls + 1, os.environment(calls)(files), ino, self)
  {
  }

  /** What the last write left is the pid alone exactly when the file it found was no longer than the pid. */
  ghost predicate ExactWhenShort(log: seq<Event>, ino: nat, self: nat) {
    && EndsWritten(log, ino, Text(self))
    && var write := log[|log| - 1];
       HoldsPid(After(write), ino, self) <==> |write.found.inodes[ino].bytes| <= |Text(self)|
  }

  // ---- Taking ownership ----

  /** The first half: read and judge an existing file. `Ok(None)`: there is none. */
  method Inspect(os: Os, path: string) returns (r: Result<Option<nat>, Errno>)
    modifies os
    ensures old(os.log) <= os.log && old(os.disturbed) <= os.disturbed
    ensures os.Quiet() ==> os.files == old(os.files) && os.disturbed == old(os.disturbed)
    ensures Untouched(old(os.files), os.files, os.disturbed, None)
    ensures var events := os.log[|old(os.log)|..];
            && OnlyLooks(events)
            && (r.Ok? && r.value.Some? ==> ProvenStale(events, r.value.value))
    ensures os.Faultless() && os.QuietUntil(old(os.calls) + 6)
            ==> r == Inspection(old(os.files), path, os.probe, old(os.calls) + 4) && os.files == old(os.files)
    ensures r.Ok? ==> os.calls == old(os.calls) + if r.value.None? then 1 else 6
  {
    hide *;
    InspectionMeans(os.files, path, os.newIno(os.calls), os.probe, os.calls + 4);
    ghost var start, files, end := |os.log|, os.files, os.calls + 6;
    JudgedUnread(0, "", "", EINVAL);
    JudgedMeans([], 0, Some(EINVAL));
    UntouchedItself(files, os.disturbed);
    NextTurn(os, files, None);
    QuietTurn(os, end);
    var opening := os.Open(path, false, false);
    assert os.log == old(os.log) && os.log[start..] == [];
    if opening.Err? {
      return if opening.error == ENOENT then Ok(None) else Err(opening.error);
    }
    var fd := opening.value;
    ghost var before, disturbed := os.files, os.disturbed;
    var error := JudgeFile(os, fd, end);
    UntouchedThen(files, before, os.files, disturbed, os.disturbed, None);
    JudgedMeans(os.log[start..], fd, error);
    NextTurn(os, files, None);
    QuietTurn(os, end);
    var closed := os.Close();
    if error.Some? {
      return Err(error.value);
    }
    return if closed.Some? then Err(closed.value) else Ok(Some(fd));
  }

  /** The environment's next turn: quiet environments change nothing, others only what is then disturbed. */
  lemma NextTurn(os: Os, start: Files, owned: Option<nat>)
    requires Untouched(start, os.files, os.disturbed, owned)
    ensures var next := os.environment(os.calls)(os.files);
            && Untouched(start, next, os.disturbed + Changed(os.files, next), owned)
            && (os.Quiet() ==> next == os.files && Changed(os.files, next) == {})
  {
  }

  /** A turn before `end` of an environment quiet until then, and the call after it. */
  lemma QuietTurn(os: Os, end: nat)
    ensures os.QuietUntil(end) && os.calls < end ==> os.environment(os.calls)(os.files) == os.files
    ensures os.Faultless() ==> os.fault(os.calls).None? && os.short(os.calls) >= BUFFER
    ensures os.Gentle() ==> SameShape(os.files, os.environment(os.calls)(os.files))
    ensures os.Quiet() ==> os.QuietUntil(end) && os.Gentle()
  {
  }

  /** What is at a path, where calls do not fail: nothing, a stale pidfile, or a reason to leave it alone. */
  function Inspection(f: Files, path: string, probe: (nat, nat) -> Option<Errno>, call: nat)
    : Result<Option<nat>, Errno>
  {
    match Opened(f, path, false, false, 0)
    case Err(error) => if error == ENOENT then Ok(None) else Err(error)
    case Ok(ino) =>
      if ino !in f.inodes || f.inodes[ino].kind != Regular then Err(EINVAL)
      else match Judgement(f.inodes[ino].bytes, probe, call)
        case Some(error) => Err(error)
        case None => Ok(Some(ino))
  }

  /** Looking changes nothing, and only a probe that found no process, after the whole file was read, finds no fault. */
  ghost predicate Judged(events: seq<Event>, ino: nat, error: Option<Errno>) {
    && OnlyLooks(events)
    && (error.None? ==> ProvenStale(events, ino))
    && (events != [] && events[|events| - 1].Probed? ==> error == Verdict(events[|events| - 1].error))
    && (events == [] || !events[|events| - 1].Probed? ==> error.Some?)
  }

  lemma InspectionMeans(f: Files, path: string, ino: nat, probe: (nat, nat) -> Option<Errno>, call: nat)
    ensures var opening, inspection := Opened(f, path, false, false, ino), Inspection(f, path, probe, call);
            if opening.Err? then inspection == if opening.error == ENOENT then Ok(None) else Err(opening.error)
            else
              && opening.value in f.inodes
              && var inode := f.inodes[opening.value];
                 var error := if inode.kind != Regular then Some(EINVAL) else Judgement(inode.bytes, probe, call);
                 inspection == if error.Some? then Err(error.value) else Ok(Some(opening.value))
  {
  }

  lemma InspectionRefuses(f: Files, path: string, probe: (nat, nat) -> Option<Errno>, call: nat)
    ensures var inspection := Inspection(f, path, probe, call);
            match Opened(f, path, false, false, 0)
            case Err(error) => error != ENOENT ==> inspection == Err(error)
            case Ok(ino) =>
              && (!WellFormed(f, ino) ==> inspection == Err(EINVAL))
              && (WellFormed(f, ino) ==>
                    var pid := PidOf(f.inodes[ino].bytes).value;
                    match probe(call, pid)
                    case None => inspection == Err(EEXIST)
                    case Some(error) => error != ESRCH ==> inspection == Err(error))
  {
    hide PidOf;
  }

  lemma JudgedMeans(events: seq<Event>, ino: nat, error: Option<Errno>)
    requires Judged(events, ino, error)
    ensures OnlyLooks(events)
    ensures error.None? ==> ProvenStale(events, ino)
  {
  }

  lemma JudgedUnread(fd: nat, first: string, second: string, error: Errno)
    ensures Judged([], fd, Some(error))
    ensures Judged([ReadBytes(fd, first)], fd, Some(error))
    ensures Judged([ReadBytes(fd, first), ReadBytes(fd, second)], fd, Some(error))
  {
  }

  /** The checks on the open file: it is regular, and stale. */
  method JudgeFile(os: Os, fd: nat, ghost end: nat) returns (error: Option<Errno>)
    modifies os
    ensures old(os.log) <= os.log && old(os.disturbed) <= os.disturbed
    ensures os.Quiet() ==> os.files == old(os.files) && os.disturbed == old(os.disturbed)
    ensures Untouched(old(os.files), os.files, os.disturbed, None)
    ensures Judged(os.log[|old(os.log)|..], fd, error)
    ensures os.Faultless() && os.QuietUntil(end) && old(os.calls) + 4 <= end && fd in old(os.files.inodes) ==>
              && os.files == old(os.files)
              && error == if old(os.files.inodes[fd].kind) != Regular then Some(EINVAL)
                          else Judgement(old(os.files.inodes[fd].bytes), os.probe, old(os.calls) + 3)
    ensures os.calls <= old(os.calls) + 4 && (error.None? ==> os.calls == old(os.calls) + 4)
  {
    hide Changed, Untouched, Os.Quiet, Os.QuietUntil, Os.Faultless, Judged, Judgement;
    ghost var files := os.files;
    UntouchedItself(files, os.disturbed);
    NextTurn(os, files, None);
    QuietTurn(os, end);
    var stat := os.Fstat(fd);
    assert os.log[|old(os.log)|..] == [];
    JudgedUnread(fd, "", "", if stat.Err? then stat.error else EINVAL);
    if stat.Err? {
      return Some(stat.error);
    }
    if stat.value != Regular {
      return Some(EINVAL);
    }
    ghost var before, disturbed := os.files, os.disturbed;
    error := JudgeStale(os, fd, end);
    UntouchedThen(files, before, os.files, disturbed, os.disturbed, None);
  }

  method JudgeStale(os: Os, fd: nat, ghost end: nat) returns (error: Option<Errno>)
    modifies os
    ensures old(os.log) <= os.log && old(os.disturbed) <= os.disturbed
    ensures os.Quiet() ==> os.files == old(os.files) && os.disturbed == old(os.disturbed)
    ensures Untouched(old(os.files), os.files, os.disturbed, None)
    ensures Judged(os.log[|old(os.log)|..], fd, error)
    ensures os.Faultless() && os.QuietUntil(end) && old(os.calls) + 3 <= end && fd in old(os.files.inodes) ==>
              && os.files == old(os.files)
              && error == Judgement(old(os.files.inodes[fd].bytes), os.probe, old(os.calls) + 2)
    ensures os.calls <= old(os.calls) + 3 && (error.None? ==> os.calls == old(os.calls) + 3)
  {
    hide PidOf, ProvenStale, Changed, Untouched, ReadAt, Os.Quiet, Os.QuietUntil, Os.Faultless, Judged, ChangesNothing;
    ghost var start, files := |os.log|, os.files;
    PidOfNothing();
    var read := ReadWhole(os, fd, end);
    if read.Err? {
      return Some(read.error);
    }
    var pid := PidOf(read.value);
    assert os.log[start..] == [ReadBytes(fd, read.value), ReadBytes(fd, "")];
    if pid.None? {
      JudgedUnread(fd, read.value, "", EINVAL);
      return Some(EINVAL);
    }
    NextTurn(os, files, None);
    QuietTurn(os, end);
    var probed := os.Kill(pid.value);
    ghost var events := os.log[start..];
    assert events == [ReadBytes(fd, read.value), ReadBytes(fd, ""), Probed(pid.value, probed)];
    ReadAndProbed(fd, read.value, pid.value, probed);
    if probed.None? {
      return Some(EEXIST);
    }
    return if probed.value != ESRCH then probed else None;
  }

  /** The two reads: a file that is empty or does not fit the buffer is refused. */
  method ReadWhole(os: Os, fd: nat, ghost end: nat) returns (r: Result<string, Errno>)
    modifies os
    ensures old(os.log) <= os.log && old(os.disturbed) <= os.disturbed
    ensures os.Quiet() ==> os.files == old(os.files) && os.disturbed == old(os.disturbed)
    ensures Untouched(old(os.files), os.files, os.disturbed, None)
    ensures if r.Ok? then os.log == old(os.log) + [ReadBytes(fd, r.value)] + [ReadBytes(fd, "")]
            else Judged(os.log[|old(os.log)|..], fd, Some(r.error))
    ensures os.Faultless() && os.QuietUntil(end) && old(os.calls) + 2 <= end && fd in old(os.files.inodes) ==>
              && os.files == old(os.files)
              && var bytes := old(os.files.inodes[fd].bytes);
                 r == if bytes == "" || |bytes| >= BUFFER then Err(EINVAL) else Ok(bytes)
    ensures os.calls <= old(os.calls) + 2 && (r.Ok? ==> os.calls == old(os.calls) + 2)
  {
    hide Changed, Untouched, ReadAt, Os.Quiet, Os.QuietUntil, Os.Faultless, Judged;
    ghost var start, files := |os.log|, os.files;
    UntouchedItself(files, os.disturbed);
    NextTurn(os, files, None);
    QuietTurn(os, end);
    if os.Faultless() && fd in files.inodes {
      WholeFileRead(files.inodes[fd].bytes, os.short(os.calls), os.short(os.calls + 1));
    }
    var first := os.Read(fd, 0, BUFFER - 1);
    if first.Err? {
      JudgedUnread(fd, "", "", first.error);
      assert os.log[start..] == [];
      return Err(first.error);
    }
    var buf := first.value;
    assert os.log[start..] == [ReadBytes(fd, buf)];
    NextTurn(os, files, None);
    QuietTurn(os, end);
    var extra := os.Read(fd, |buf|, 1);
    if extra.Err? {
      JudgedUnread(fd, buf, "", extra.error);
      assert os.log[start..] == [ReadBytes(fd, buf)];
      return Err(extra.error);
    }
    if extra.value != "" || buf == "" {
      JudgedUnread(fd, buf, extra.value, EINVAL);
      assert os.log[start..] == [ReadBytes(fd, buf), ReadBytes(fd, extra.value)];
      return Err(EINVAL);
    }
    r := Ok(buf);
  }

  lemma PidOfNothing()
    ensures PidOf("").None?
  {
  }

  /** The two reads see the whole of a file that fits the buffer, and more than fits of any other. */
  lemma WholeFileRead(bytes: string, cut: nat, cutAgain: nat)
    requires cut >= BUFFER
    ensures var buf := ReadAt(bytes, 0, BUFFER - 1, cut);
            && (|bytes| < BUFFER ==> buf == bytes && ReadAt(bytes, |buf|, 1, cutAgain) == "")
            && (|bytes| >= BUFFER ==> ReadAt(bytes, |buf|, 1, cutAgain) != "")
  {
    assert bytes[0..] == bytes;
    assert bytes[..|bytes|] == bytes;
  }

  lemma ReadAndProbed(fd: nat, data: string, pid: nat, error: Option<Errno>)
    requires PidOf(data) == Some(pid)
    ensures Judged([ReadBytes(fd, data), ReadBytes(fd, ""), Probed(pid, error)], fd, Verdict(error))
  {
    var events := [ReadBytes(fd, data), ReadBytes(fd, ""), Probed(pid, error)];
    assert events[0].ReadBytes? && events[1] == ReadBytes(fd, "") && events[2].Probed?;
  }

  /**
   `iperf3rs_pidfile_checked`. `owned` is the inode number recorded when ownership is taken; on an error
   after that it stays set, for cleanup to act on.
   */
  method PidfileChecked(os: Os, path: Option<string>, self: nat) returns (r: Result<(), Errno>, owned: Option<nat>)
    requires 0 < self <= PID_MAX
    modifies os
    ensures old(os.log) <= os.log
    // What this process did: it removed nothing, and every change was to the owned file, which it created or had proved
    // stale before ...
    ensures var events := os.log[|old(os.log)|..];
            && ChangesOnlyOwn(events) && ChangesOnly(events, owned)
            && (owned.Some? ==> MayChange(events, owned.value))
    ensures path.None? ==> r.Ok? && owned.None? && os.log == old(os.log)
    // ... a success ends with the write of the pid, which leaves nothing else in the file exactly when there was not
    // more in it by then than the pid takes ...
    ensures r.Ok? && path.Some? ==>
              && owned.Some? && |old(os.log)| < |os.log|
              && WrittenAndClosed(os, os.log, os.calls, os.files, owned.value, self)
              && ExactWhenShort(os.log, owned.value, self)
    // ... what became of the files: all that was there keeps its bytes, but for the owned one and the environment's ...
    ensures Untouched(old(os.files), os.files, os.disturbed, owned)
    ensures os.Quiet() ==> os.disturbed == {}
    ensures r.Ok? && path.Some? && owned.value !in os.disturbed
            ==> HoldsPid(os.files, owned.value, self)
    // ... what is bound to happen when no call fails and others change no more than the bytes of files, once the file
    // at the path was looked at ...
    ensures path.Some? && os.Faultless() && os.Gentle() && os.QuietUntil(old(os.calls) + 6) ==>
              match Inspection(old(os.files), path.value, os.probe, old(os.calls) + 4)
              case Err(error) => r == Err(error) && owned.None?
              case Ok(Some(ino)) => r.Ok? && owned == Some(ino) && os.calls == old(os.calls) + 11
              case Ok(None) =>
                var ino := os.newIno(old(os.calls) + 1);
                path.value !in old(os.files.names) && ino !in old(os.files.inodes)
                ==> r.Ok? && owned == Some(ino) && os.calls == old(os.calls) + 5
    // ... which files are refused, and how: one that is malformed, and one whose process the probe finds alive ...
    ensures path.Some? && os.Faultless() && os.QuietUntil(old(os.calls) + 6) ==>
              match Opened(old(os.files), path.value, false, false, 0)
              case Err(error) => error != ENOENT ==> r == Err(error)
              case Ok(ino) =>
                && (!WellFormed(old(os.files), ino) ==> r == Err(EINVAL))
                && (WellFormed(old(os.files), ino) ==>
                      var pid := PidOf(old(os.files).inodes[ino].bytes).value;
                      match os.probe(old(os.calls) + 4, pid)
                      case None => r == Err(EEXIST)
                      case Some(error) => error != ESRCH ==> r == Err(error))
    // ... and what when nobody else changes anything.
    ensures path.Some? && os.Faultless() && os.Quiet() ==>
              match Inspection(old(os.files), path.value, os.probe, old(os.calls) + 4)
              case Err(error) => r == Err(error) && os.files == old(os.files) && owned.None?
              case Ok(Some(ino)) => r.Ok? && owned == Some(ino) && os.files == WithPid(old(os.files), ino, self)
              case Ok(None) =>
                var ino := os.newIno(old(os.calls) + 1);
                path.value !in old(os.files.names) && ino !in old(os.files.inodes)
                ==> && r.Ok? && owned == Some(ino)
                    && os.files
                        == WithPid(Files(old(os.files.names)[path.value := ino], old(os.files.inodes)), ino, self)
  {
    hide ChangesOnlyOwn, ChangesOnly, ProvenStale, MayChange, ChangesNothing, EndsWritten, Untouched, Changed,
         Judgement, Os.Quiet, Os.QuietUntil, Os.Gentle, Os.Faultless, WithPid, WrittenAndClosed, ExactWhenShort,
         HoldsPid, WellFormed, PidOf;
    owned := None;
    QuietTurn(os, os.calls + 6);
    if path.Some? {
      InspectionRefuses(os.files, path.value, os.probe, os.calls + 4);
    }
    os.disturbed := {};
    ghost var files, start := os.files, |os.log|;
    UntouchedItself(files, os.disturbed);
    if path.None? {
      NothingChanged([], 0, []);
      assert os.log[start..] == [] + [];
      return Ok(()), None;
    }
    var inspected := Inspect(os, path.value);
    NothingChanged(os.log[start..], 0, []);
    if inspected.Err? {
      return Err(inspected.error), None;
    }
    ghost var sofar, given, disturbed := os.log[start..], os.files, os.disturbed;
    ghost var middle := |os.log|;
    r, owned := Claim(os, path.value, inspected.value, self, sofar);
    assert os.log[start..] == sofar + os.log[middle..];
    UntouchedThen(files, given, os.files, disturbed, os.disturbed, owned);
  }

  /** From opening the path for writing to closing it; `sofar` is what this call did before. */
  method Claim(os: Os, path: string, observed: Option<nat>, self: nat, ghost sofar: seq<Event>)
    returns (r: Result<(), Errno>, owned: Option<nat>)
    requires 0 < self <= PID_MAX
    requires ChangesNothing(sofar) && (observed.Some? ==> ProvenStale(sofar, observed.value))
    modifies os
    ensures old(os.log) <= os.log && old(os.disturbed) <= os.disturbed
    ensures var events := sofar + os.log[|old(os.log)|..];
            && ChangesOnlyOwn(events) && ChangesOnly(events, owned)
            && (owned.Some? ==> MayChange(events, owned.value))
    ensures r.Ok? ==>
              && owned.Some? && |old(os.log)| < |os.log|
              && WrittenAndClosed(os, os.log, os.calls, os.files, owned.value, self)
              && ExactWhenShort(os.log, owned.value, self)
    ensures Untouched(old(os.files), os.files, os.disturbed, owned)
    ensures os.Quiet() ==> os.disturbed == old(os.disturbed)
    ensures r.Ok? && owned.value !in os.disturbed ==> HoldsPid(os.files, owned.value, self)
    ensures os.Faultless() && os.Gentle() && observed.Some?
            && Opened(old(os.files), path, true, false, os.newIno(old(os.calls))) == Ok(observed.value)
            && observed.value in old(os.files).inodes && old(os.files).inodes[observed.value].kind == Regular
            ==> && r.Ok? && owned == observed && os.calls == old(os.calls) + 5
                && (os.Quiet() ==> os.files == WithPid(old(os.files), observed.value, self))
    ensures var ino := os.newIno(old(os.calls));
            os.Faultless() && os.Gentle() && observed.None? && Opened(old(os.files), path, true, true, ino) == Ok(ino)
            ==> && r.Ok? && owned == Some(ino) && os.calls == old(os.calls) + 4
                && (os.Quiet() ==>
                      os.files == WithPid(Files(old(os.files.names)[path := ino], old(os.files.inodes)), ino, self))
  {
    hide ChangesOnlyOwn, ChangesOnly, ProvenStale, MayChange, ChangesNothing, Untouched, Changed, Os.Quiet, Os.Gentle,
         Os.Faultless, Os.QuietUntil, WrittenLast, WrittenAndClosed, ExactWhenShort, HoldsPid, WithPid, Opened, IsEmpty;
    owned := None;
    NothingChanged(sofar, 0, []);
    ghost var files, start := os.files, |os.log|;
    UntouchedItself(files, os.disturbed);
    var opening := OpenToWrite(os, path, observed.None?, self);
    ghost var creation, given, disturbed := os.log[start..], os.files, os.disturbed;
    if opening.Err? {
      assert sofar + creation == sofar;
      return Err(opening.error), None;
    }
    var fd := opening.value;
    NothingChanged(sofar, fd, creation);
    ghost var middle := |os.log|;
    var error;
    error, owned := TakeOwnership(os, fd, observed, self, sofar + creation);
    assert sofar + os.log[start..] == sofar + creation + os.log[middle..];
    UntouchedThen(files, given, os.files, disturbed, os.disturbed, owned);
    NextTurn(os, files, owned);
    QuietTurn(os, 0);
    PidStays(os.files, os.environment(os.calls)(os.files), fd, self);
    ThenClosed(os, os.log, os.calls, os.files, fd, self);
    var closed := os.Close();
    r := if error.Some? then Err(error.value) else if closed.Some? then Err(closed.value) else Ok(());
  }

  /** The open for writing: it creates the file, or finds the one looked at before. */
  method OpenToWrite(os: Os, path: string, create: bool, ghost self: nat) returns (r: Result<nat, Errno>)
    modifies os
    ensures os.calls == old(os.calls) + 1 && old(os.disturbed) <= os.disturbed
    ensures os.log == old(os.log) + if create && r.Ok? then [Created(r.value)] else []
    ensures Untouched(old(os.files), os.files, os.disturbed, None)
    ensures os.Quiet() ==> os.disturbed == old(os.disturbed)
    ensures create && r.Ok? ==> IsEmpty(os.files, r.value)
    ensures var opening := Opened(old(os.files), path, true, create, os.newIno(old(os.calls)));
            os.Faultless() && os.Gentle() ==>
              && r == opening
              && (r.Ok? ==> r.value in os.files.inodes)
              && (r.Ok? && create ==> os.files.inodes[r.value].kind == Regular)
              && (r.Ok? && !create ==> r.value in old(os.files.inodes)
                                       && os.files.inodes[r.value].kind == old(os.files.inodes[r.value].kind))
    ensures os.Quiet() && r.Ok? ==>
              WithPid(os.files, r.value, self)
              == WithPid(if create then Files(old(os.files.names)[path := r.value], old(os.files.inodes))
                         else old(os.files), r.value, self)
  {
    hide Untouched, Changed, Os.Quiet, Os.Gentle, Os.Faultless, Os.QuietUntil, WithPid, Opened, SameShape;
    ghost var files := os.files;
    UntouchedItself(files, os.disturbed);
    NextTurn(os, files, None);
    QuietTurn(os, 0);
    ghost var found := os.environment(os.calls)(os.files);
    ghost var ino := os.newIno(os.calls);
    OpenedMeans(files, path, create, ino);
    OpenedMeans(found, path, create, ino);
    if SameShape(files, found) {
      OpenedInShape(files, found, path, create, ino);
    }
    r := os.Open(path, true, create);
    if create && r.Ok? {
      CreatedApart(files, found, path, r.value, os.disturbed);
      CreatedWithPid(found, path, r.value, self);
    }
  }

  predicate HoldsPid(f: Files, ino: nat, self: nat) {
    ino in f.inodes && f.inodes[ino].bytes == Text(self)
  }

  lemma PidStays(f: Files, g: Files, ino: nat, self: nat)
    ensures HoldsPid(f, ino, self) && ino !in Changed(f, g) ==> HoldsPid(g, ino, self)
  {
  }

  /** The files once `ino` is a regular file that holds the pid. */
  function WithPid(f: Files, ino: nat, self: nat): Files {
    f.(inodes := f.inodes[ino := Inode(Regular, Text(self))])
  }

  lemma CreatedWithPid(f: Files, path: string, ino: nat, self: nat)
    ensures WithPid(Files(f.names[path := ino], f.inodes[ino := Inode(Regular, "")]), ino, self)
            == WithPid(Files(f.names[path := ino], f.inodes), ino, self)
  {
  }

  lemma OpenedMeans(f: Files, path: string, create: bool, ino: nat)
    ensures var r := Opened(f, path, true, create, ino);
            r.Ok? ==> if create then r.value == ino && ino !in f.inodes else r.value in f.inodes
  {
  }

  lemma OpenedInShape(f: Files, g: Files, path: string, create: bool, ino: nat)
    requires SameShape(f, g)
    ensures Opened(g, path, true, create, ino) == Opened(f, path, true, create, ino)
    ensures forall fd <- f.inodes :: fd in g.inodes && g.inodes[fd].kind == f.inodes[fd].kind
  {
  }

  lemma CreatedApart(f: Files, g: Files, path: string, ino: nat, disturbed: set<nat>)
    requires Untouched(f, g, disturbed, None) && ino !in g.inodes
    ensures Untouched(f, Files(g.names[path := ino], g.inodes[ino := Inode(Regular, "")]), disturbed, None)
  {
  }

  /** The checks on the descriptor open for writing, then the write; `sofar` is what this call did before. */
  method TakeOwnership(os: Os, fd: nat, observed: Option<nat>, self: nat, ghost sofar: seq<Event>)
    returns (error: Option<Errno>, owned: Option<nat>)
    requires 0 < self <= PID_MAX
    requires ChangesNothing(sofar)
    requires if observed.Some? then ProvenStale(sofar, observed.value) else Created(fd) in sofar
    requires observed.None? ==> IsEmpty(os.files, fd)
    modifies os
    ensures old(os.log) <= os.log && old(os.disturbed) <= os.disturbed
    ensures var events := sofar + os.log[|old(os.log)|..];
            && ChangesOnlyOwn(events) && ChangesOnly(events, owned)
            && (owned.Some? ==> owned == Some(fd) && MayChange(events, fd))
    ensures Untouched(old(os.files), os.files, os.disturbed, owned)
    ensures os.Quiet() ==> os.disturbed == old(os.disturbed)
    ensures error.None? ==>
              && owned.Some? && |old(os.log)| < |os.log|
              && WrittenLast(os, os.log, os.calls, os.files, fd, self) && ExactWhenShort(os.log, fd, self)
    ensures error.None? && fd !in os.disturbed ==> HoldsPid(os.files, fd, self)
    ensures os.Faultless() && os.Gentle() && fd in old(os.files.inodes) && old(os.files.inodes[fd].kind).Regular?
            && (observed.None? || observed == Some(fd))
            ==> && error.None? && owned == Some(fd) && os.calls == old(os.calls) + (if observed.None? then 2 else 3)
                && (os.Quiet() ==> os.files == WithPid(old(os.files), fd, self))
  {
    hide ChangesOnlyOwn, ChangesOnly, ProvenStale, Text, Untouched, Changed, Os.Quiet, HoldsPid, ChangesNothing,
         WithPid, WithText, IsEmpty, Os.Gentle, Os.Faultless, Os.QuietUntil, WrittenLast, ExactWhenShort, MayChange;
    NothingChanged(sofar, 0, []);
    MayChangeMeans(sofar);
    owned := None;
    ghost var start, files := |os.log|, os.files;
    UntouchedItself(files, os.disturbed);
    error := Prepare(os, fd, observed, self);
    ghost var given, disturbed, middle := os.files, os.disturbed, |os.log|;
    if error.Some? {
      assert sofar + os.log[start..] == sofar;
      return;
    }
    owned := Some(fd);
    PidFitsBuffer(self);
    QuietTurn(os, 0);
    error := WritePid(os, fd, self);
    UntouchedThen(files, given, os.files, disturbed, os.disturbed, owned);
    OwnChanges(sofar, fd, os.log[start..]);
  }

  /** The checks on the descriptor, and the truncation of a file that was there before. */
  method Prepare(os: Os, fd: nat, observed: Option<nat>, ghost self: nat) returns (error: Option<Errno>)
    requires observed.None? ==> IsEmpty(os.files, fd)
    modifies os
    ensures old(os.disturbed) <= os.disturbed && Untouched(old(os.files), os.files, os.disturbed, Some(fd))
    ensures error.Some? ==> Untouched(old(os.files), os.files, os.disturbed, None)
    ensures os.Quiet() ==> os.disturbed == old(os.disturbed)
    ensures os.log == old(os.log) + if error.None? && observed.Some? then [Truncated(fd)] else []
    ensures error.None? ==> observed.None? || observed == Some(fd)
    ensures error.None? && (os.Quiet() || fd !in os.disturbed) ==> IsEmpty(os.files, fd)
    ensures os.Faultless() && os.Gentle() && fd in old(os.files.inodes) && old(os.files.inodes[fd].kind).Regular?
            && (observed.None? || observed == Some(fd))
            ==> && error.None? && fd in os.files.inodes
                && os.calls == old(os.calls) + (if observed.None? then 1 else 2)
                && (os.Quiet() ==> WithText(os.files, fd, self) == WithPid(old(os.files), fd, self))
  {
    hide Text, Untouched, Changed, Os.Quiet, WithPid, WithText, IsEmpty, Os.Gentle, Os.Faultless, Os.QuietUntil;
    ghost var files := os.files;
    UntouchedItself(files, os.disturbed);
    NextTurn(os, files, None);
    QuietTurn(os, 0);
    EmptyStays(files, os.environment(os.calls)(files), fd);
    var stat := os.Fstat(fd);
    UntouchedLess(files, os.files, os.disturbed, fd);
    if stat.Err? {
      return Some(stat.error);
    }
    if observed.Some? && observed.value != fd {
      return Some(EBUSY);
    }
    if stat.value != Regular {
      return Some(EINVAL);
    }
    ghost var before := os.files;
    if observed.Some? {
      NextTurn(os, files, None);
      QuietTurn(os, 0);
      before := os.environment(os.calls)(os.files);
      error := os.Truncate(fd);
      UntouchedLess(files, before, os.disturbed, fd);
      if error.Some? {
        return;
      }
      OwnWrite(files, before, fd, before.inodes[fd].(bytes := ""), os.disturbed);
    }
    TextMakesPid(before, fd, self);
    error := None;
  }

  lemma UntouchedLess(f: Files, g: Files, disturbed: set<nat>, ino: nat)
    ensures Untouched(f, g, disturbed, None) ==> Untouched(f, g, disturbed, Some(ino))
  {
  }

  predicate IsEmpty(f: Files, ino: nat) {
    ino in f.inodes && f.inodes[ino].bytes == ""
  }

  lemma EmptyStays(f: Files, g: Files, ino: nat)
    ensures IsEmpty(f, ino) && ino !in Changed(f, g) ==> IsEmpty(g, ino)
  {
  }

  /** The write into the file just taken, empty unless the environment has changed it. */
  method WritePid(os: Os, fd: nat, self: nat) returns (error: Option<Errno>)
    requires 0 < self <= PID_MAX
    requires fd !in os.disturbed ==> IsEmpty(os.files, fd)
    modifies os
    ensures old(os.log) <= os.log && old(os.disturbed) <= os.disturbed
    ensures forall e <- os.log[|old(os.log)|..] :: e.Wrote? && e.ino == fd
    ensures os.calls == old(os.calls) + 1
    ensures var before := os.environment(old(os.calls))(old(os.files));
            && (error.None? <==>
                  fd in before.inodes && os.fault(old(os.calls)).None? && |Text(self)| <= os.short(old(os.calls)))
            && (error.None? ==>
                  && os.log == old(os.log) + [Wrote(fd, Text(self), before)]
                  && os.files == After(Wrote(fd, Text(self), before))
                  && (HoldsPid(os.files, fd, self) <==> |before.inodes[fd].bytes| <= |Text(self)|)
                  && WrittenLast(os, os.log, os.calls, os.files, fd, self) && ExactWhenShort(os.log, fd, self))
    ensures Untouched(old(os.files), os.files, os.disturbed, Some(fd))
    ensures os.Quiet() ==> os.disturbed == old(os.disturbed)
    ensures error.None? && fd !in os.disturbed ==> HoldsPid(os.files, fd, self)
    ensures os.Quiet() && IsEmpty(old(os.files), fd) && error.None? ==> os.files == WithText(old(os.files), fd, self)
  {
    hide Text, Untouched, Changed, Os.Quiet;
    PidFitsBuffer(self);
    var text := Text(self);
    if |text| >= BUFFER {
      return Some(EOVERFLOW);
    }
    UntouchedItself(os.files, os.disturbed);
    NextTurn(os, os.files, Some(fd));
    ghost var before := os.environment(os.calls)(os.files);
    EmptyStays(os.files, before, fd);
    ghost var files := os.files;
    var written := os.Write(fd, text);
    if written.Err? {
      return Some(written.error);
    }
    OwnWrite(files, before, fd, os.files.inodes[fd], os.disturbed);
    if written.value != |text| {
      return Some(EIO);
    }
    assert text[..|text|] == text;
    error := None;
  }

  /** Emptying a regular file and writing the pid leaves it with the pid. */
  lemma TextMakesPid(f: Files, ino: nat, self: nat)
    requires ino in f.inodes
    ensures var empty := f.(inodes := f.inodes[ino := f.inodes[ino].(bytes := "")]);
            && IsEmpty(empty, ino)
            && (f.inodes[ino].kind == Regular ==> WithText(empty, ino, self) == WithPid(f, ino, self))
    ensures f.inodes[ino].kind == Regular ==> WithText(f, ino, self) == WithPid(f, ino, self)
  {
  }

  function WithText(f: Files, ino: nat, self: nat): Files
    requires ino in f.inodes
  {
    f.(inodes := f.inodes[ino := f.inodes[ino].(bytes := Text(self))])
  }

  lemma OwnWrite(f: Files, g: Files, ino: nat, inode: Inode, disturbed: set<nat>)
    requires Untouched(f, g, disturbed, None) || Untouched(f, g, disturbed, Some(ino))
    ensures Untouched(f, g.(inodes := g.inodes[ino := inode]), disturbed, Some(ino))
  {
  }

  /** Somebody else's write into a file, if it is there. */
  function Scribbled(f: Files, ino: nat, bytes: string): (g: Files)
    ensures SameShape(f, g)
    ensures ino in g.inodes ==> g.inodes[ino].bytes == bytes
  {
    if ino in f.inodes then f.(inodes := f.inodes[ino := f.inodes[ino].(bytes := bytes)]) else f
  }

  /**
   A stale pidfile is taken over, and somebody writes into it between the truncation and the write, which are the ninth
   and the tenth call. The result is a success, and the file holds the rest of that write behind the pid.
   */
  method MoreThanThePidCanRemain(path: string, ino: nat, stale: string, self: nat, bytes: string)
    returns (os: Os, r: Result<(), Errno>, owned: Option<nat>)
    requires 0 < self <= PID_MAX && |bytes| > |Text(self)|
    requires |stale| < BUFFER && PidOf(stale).Some?
    ensures fresh(os) && r.Ok? && owned == Some(ino) && ino in os.files.inodes && !HoldsPid(os.files, ino, self)
    ensures os.files.inodes[ino].bytes == Text(self) + bytes[|Text(self)|..]
  {
    hide *;
    var scribble := (call: nat) => (f: Files) => if call == 9 then Scribbled(f, ino, bytes) else f;
    var files := Files(map[path := ino], map[ino := Inode(Regular, stale)]);
    os := new Os(scribble, _ => None, _ => BUFFER, _ => 0, (_, _) => Some(ESRCH), files);
    StaleIsFound(files, path, ino, os.probe, 4);
    OneScribble(os, ino, bytes);
    r, owned := PidfileChecked(os, Some(path), self);
    ScribbleRemains(os, os.log, os.files, ino, self, bytes);
  }

  lemma StaleIsFound(f: Files, path: string, ino: nat, probe: (nat, nat) -> Option<Errno>, call: nat)
    requires path in f.names && f.names[path] == ino && ino in f.inodes && f.inodes[ino].kind == Regular
    requires |f.inodes[ino].bytes| < BUFFER && PidOf(f.inodes[ino].bytes).Some?
    requires forall call, pid :: probe(call, pid) == Some(ESRCH)
    ensures Inspection(f, path, probe, call) == Ok(Some(ino))
  {
  }

  lemma OneScribble(os: Os, ino: nat, bytes: string)
    requires forall f: Files :: os.environment(9)(f) == Scribbled(f, ino, bytes)
    requires forall call: nat, f: Files | call != 9 :: os.environment(call)(f) == f
    requires forall call :: os.fault(call).None? && os.short(call) == BUFFER
    ensures os.Faultless() && os.Gentle() && os.QuietUntil(6)
  {
    hide Scribbled;
    forall call: nat, f: Files
      ensures SameShape(f, os.environment(call)(f)) && (call < 6 ==> os.environment(call)(f) == f)
    {
      assert call != 9 ==> os.environment(call)(f) == f;
    }
  }

  lemma ScribbleRemains(os: Os, log: seq<Event>, files: Files, ino: nat, self: nat, bytes: string)
    requires forall f: Files :: os.environment(9)(f) == Scribbled(f, ino, bytes)
    requires forall call: nat, f: Files | call != 9 :: os.environment(call)(f) == f
    requires WrittenAndClosed(os, log, 11, files, ino, self) && |bytes| > |Text(self)|
    ensures ino in files.inodes && !HoldsPid(files, ino, self)
    ensures files.inodes[ino].bytes == Text(self) + bytes[|Text(self)|..]
  {
    hide Text, Scribbled;
    var write := log[|log| - 1];
    var f :| os.environment(9)(f) == write.found;
    assert write.found == Scribbled(f, ino, bytes);
    assert files == After(write);
  }

  lemma PidFitsBuffer(pid: nat)
    requires pid <= PID_MAX
    ensures |Text(pid)| <= 10 && Pow10(10) > PID_MAX
  {
    assert Pow10(10) == 10_000_000_000 by {
      assert Pow10(3) == 1_000;
      assert Pow10(5) == 100_000;
      assert Pow10(7) == 10_000_000;
      assert Pow10(9) == 1_000_000_000;
    }
    TextBound(pid, 10);
  }

  /** The next run of the program reads what this one wrote as this process's pid, newline or not. */
  lemma OwnPidfileReadsBack(self: nat)
    requires 0 < self <= PID_MAX
    ensures PidOf(Text(self)) == Some(self) && PidOf(Text(self) + "\n") == Some(self)
  {
    ValueOfText(self);
    assert Chomp(Text(self) + "\n") == Text(self);
    assert IsDigit(Text(self)[|Text(self)| - 1]);
  }

  lemma NothingChanged(log: seq<Event>, ino: nat, creation: seq<Event>)
    requires ChangesNothing(log) && (creation == [] || creation == [Created(ino)])
    ensures ChangesNothing(log + creation) && ChangesOnlyOwn(log + creation) && ChangesOnly(log + creation, None)
    ensures log + [] == log
    ensures creation != [] ==> Created(ino) in log + creation
  {
  }

  lemma StaleEarlier(a: seq<Event>, b: seq<Event>, ino: nat)
    requires MayChange(a, ino)
    ensures MayChange(a + b, ino)
  {
    if ProvenStale(a, ino) {
      var i, j, k :| 0 <= i < j < k < |a|
        && a[i].ReadBytes? && a[i].ino == ino && a[j] == ReadBytes(ino, "")
        && a[k].Probed? && a[k].error == Some(ESRCH) && PidOf(a[i].data) == Some(a[k].pid);
      var c := a + b;
      assert c[i] == a[i] && c[j] == a[j] && c[k] == a[k];
      assert ProvenStale(c, ino);
    }
  }

  lemma OwnChanges(sofar: seq<Event>, ino: nat, done: seq<Event>)
    requires ChangesNothing(sofar) && MayChange(sofar, ino)
    requires forall e <- done :: (e.Wrote? || e.Truncated?) && e.ino == ino
    ensures ChangesOnlyOwn(sofar + done) && ChangesOnly(sofar + done, Some(ino)) && MayChange(sofar + done, ino)
  {
    var log := sofar + done;
    forall m | 0 <= m < |log| && (log[m].Truncated? || log[m].Wrote?) ensures MayChange(log[..m], log[m].ino) {
      assert m >= |sofar| && log[m] in done;
      assert log[..m] == sofar + done[..m - |sofar|];
      StaleEarlier(sofar, done[..m - |sofar|], ino);
    }
    StaleEarlier(sofar, done, ino);
  }

  // ---- Giving it up ----

  /** The removal at the end of `iperf3rs_cli_cleanup`: `lstat`, compare, `unlink`. */
  method RemoveOwned(os: Os, path: string, identity: nat) returns (error: Option<Errno>)
    modifies os
    ensures old(os.log) <= os.log
    ensures var events := os.log[|old(os.log)|..];
            var looked := os.environment(old(os.calls))(old(os.files));
            var acted := os.environment(old(os.calls) + 1)(looked);
            var lookFault, actFault := os.fault(old(os.calls)), os.fault(old(os.calls) + 1);
            var found := lookFault.None? && path in looked.names;
            // Something is removed exactly when the owned file was found at the path and neither call fails ...
            && (events != [] <==> found && looked.names[path] == identity && actFault.None? && path in acted.names)
            // ... namely whatever is at the path by then, which is the owned file unless somebody rebound the path.
            && (events != [] ==>
                  events == [Unlinked(acted.names[path])] && os.files == acted.(names := acted.names - {path}))
            && (events == [] ==> os.files == if found && looked.names[path] == identity then acted else looked)
            // A removal, and a path with nothing at it, are no error; a file of somebody else is.
            && (error.None?
                <==> events != [] || lookFault == Some(ENOENT) || (lookFault.None? && path !in looked.names))
            && (found && looked.names[path] != identity ==> error == Some(EBUSY))
  {
    var current := os.Lstat(path);
    if current.Err? {
      return if current.error == ENOENT then None else Some(current.error);
    }
    if current.value != identity {
      return Some(EBUSY);
    }
    error := os.Unlink(path);
  }

  /**
   The comparison does not protect a file bound to the path between `lstat` and `unlink`: here it is the one that goes.
   */
  method AnotherFileCanBeRemoved(path: string, identity: nat, other: nat, inodes: map<nat, Inode>)
    returns (os: Os, error: Option<Errno>)
    requires identity != other && identity in inodes && other in inodes
    ensures fresh(os) && error.None? && os.log == [Unlinked(other)] && path !in os.files.names
  {
    var rebind := (call: nat) => (f: Files) => if call == 1 then f.(names := f.names[path := other]) else f;
    os := new Os(rebind, _ => None, _ => BUFFER, _ => 0, (_, _) => None, Files(map[path := identity], inodes));
    error := RemoveOwned(os, path, identity);
    assert os.log == os.log[0..];
  }
}
