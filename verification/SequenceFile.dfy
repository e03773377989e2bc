/** lock/lockmain.c with lock/lockopen.c: processes increment a number kept as text in a file,
 *  each under a lock that is the existence of another file.
 *
 *  A step is one of: the successful exclusive create, the read with what follows it up to the
 *  write, the write, the unlink.  A create that fails changes nothing and is tried again. */
module SequenceFile {
  import opened Basics
  import opened Sums
  import opened Text

  const ROUNDS := 20
  const MAXLINE := 256
  const LONG_MAX := 0x7FFF_FFFF_FFFF_FFFF

  datatype Pc = Lock | Read | Write | Unlock | Done

  /** `round`: the loop variable i; `seqno`: the process's own copy of the number. */
  datatype Process = Process(pc: Pc, round: nat, seqno: int)

  /** `printed`: the numbers printed by all processes, in order. */
  datatype State = State(file: string, lockFile: bool, processes: seq<Process>, printed: seq<int>)

  ghost function Init(file: string, processes: nat): State {
    State(file, false, seq(processes, _ => Process(Lock, 0, 0)), [])
  }

  /** What read(fd, line, MAXLINE) finds at the start of the file. */
  function Line(file: string): (line: string)
    ensures line <= file && |line| == if |file| < 256 then |file| else 256
  {
    if |file| <= MAXLINE then file else file[..MAXLINE]
  }

  /** Writing at the start of a file leaves what stands behind. */
  function Overwrite(file: string, text: string): (r: string)
    ensures text <= r && |r| == (if |text| < |file| then |file| else |text|)
    ensures forall i | |text| <= i < |r| :: r[i] == file[i]
  {
    text + (if |text| <= |file| then file[|text|..] else "")
  }

  predicate Enabled(s: State, t: nat) {
    && t < |s.processes|
    && match s.processes[t].pc
       case Lock => !s.lockFile
       case Done => false
       case _ => true
  }

  function Apply(s: State, t: nat): State
    requires Enabled(s, t)
  {
    var p := s.processes[t];
    match p.pc
    case Lock => s.(lockFile := true, processes := s.processes[t := p.(pc := Read)])
    case Read =>
      var n := match Scan(Line(s.file)) case Some(n) => n case None => p.seqno;
      s.(printed := s.printed + [n], processes := s.processes[t := p.(pc := Write, seqno := n + 1)])
    case Write =>
      s.(file := Overwrite(s.file, Print(p.seqno) + "\n"), processes := s.processes[t := p.(pc := Unlock)])
    case Unlock =>
      s.(lockFile := false,
         processes := s.processes[t := p.(round := p.round + 1, pc := if p.round + 1 < ROUNDS then Lock else Done)])
  }

  ghost predicate Legal(s: State, run: seq<nat>)
    decreases |run|
  {
    run == [] || (Enabled(s, run[0]) && Legal(Apply(s, run[0]), run[1..]))
  }

  ghost function Exec(s: State, run: seq<nat>): State
    requires Legal(s, run)
    decreases |run|
  {
    if run == [] then s else Exec(Apply(s, run[0]), run[1..])
  }

  // ----- text

  lemma PrintLength(n: int)
    requires -LONG_MAX - 1 <= n <= LONG_MAX
    ensures |Print(n)| <= 20
  {
    assert Power10(4) == 10000;
    assert Power10(8) == 10000 * Power10(4);
    assert Power10(12) == 10000 * Power10(8);
    assert Power10(16) == 10000 * Power10(12);
    assert Power10(19) == 1000 * Power10(16);
    DigitsLength(if n < 0 then -n else n, 19, Power10(19));
  }

  /** Whatever a file held, once a number has been written at its start the file reads as that
   *  number. */
  lemma WrittenReadsBack(file: string, n: int)
    requires -LONG_MAX - 1 <= n <= LONG_MAX
    ensures Scan(Line(Overwrite(file, Print(n) + "\n"))) == Some(n)
  {
    PrintLength(n);
    var text := Print(n) + "\n";
    var line := Line(Overwrite(file, text));
    var tail := line[|Print(n)|..];
    assert line[..|text|] == text;
    assert line == Print(n) + tail && tail[0] == '\n';
    ScanPrint(n, tail);
  }

  // ----- invariant

  function Holding(p: Process): int { if p.pc in {Read, Write, Unlock} then 1 else 0 }
  function Writes(p: Process): int { p.round + if p.pc.Unlock? then 1 else 0 }
  function Reads(p: Process): int { p.round + if p.pc in {Write, Unlock} then 1 else 0 }

  ghost predicate Inv(initial: int, n: nat, s: State) {
    && |s.processes| == n && initial + ROUNDS * n <= LONG_MAX && initial >= -LONG_MAX - 1
    && Sum(s.processes, Holding) == (if s.lockFile then 1 else 0)
    && Scan(Line(s.file)) == Some(initial + Sum(s.processes, Writes))
    && |s.printed| == Sum(s.processes, Reads)
    && (forall i | 0 <= i < |s.printed| :: s.printed[i] == initial + i)
    && (forall t: nat | t < n ::
          && s.processes[t].round <= ROUNDS && (s.processes[t].pc.Done? <==> s.processes[t].round == ROUNDS)
          && (s.processes[t].pc.Write? ==> s.processes[t].seqno == initial + Sum(s.processes, Writes) + 1))
  }

  /** With nobody else in the critical region, the process in front of its write is one read ahead. */
  lemma ReadsAndWrites(initial: int, n: nat, s: State, t: nat)
    requires Inv(initial, n, s) && t < n && Holding(s.processes[t]) == 1
    ensures Sum(s.processes, Reads) == Sum(s.processes, Writes) + (if s.processes[t].pc.Write? then 1 else 0)
    ensures s.lockFile && forall k: nat | k < n && k != t :: Holding(s.processes[k]) == 0
  {
    SumAtLeast(s.processes, t, Holding);
    forall k: nat | k < n && k != t ensures Holding(s.processes[k]) == 0 {
      if k < t { SumAtLeastTwo(s.processes, k, t, Holding); } else { SumAtLeastTwo(s.processes, t, k, Holding); }
    }
    var p := s.processes[t].(pc := Lock);
    SumUpdate(s.processes, t, p, Reads);
    SumUpdate(s.processes, t, p, Writes);
    SumPointwise(s.processes[t := p], Reads, s.processes[t := p], Writes);
  }

  lemma WritesBounded(initial: int, n: nat, s: State, t: nat)
    requires Inv(initial, n, s) && t < n && s.processes[t].pc.Write?
    ensures 0 <= Sum(s.processes, Writes) < ROUNDS * n
  {
    var p := s.processes[t].(pc := Unlock);
    SumUpdate(s.processes, t, p, Writes);
    var u := s.processes[t := p];
    assert forall k | 0 <= k < n :: Writes(u[k]) <= ROUNDS;
    SumAtMost(u, Writes, ROUNDS);
    SumNonNegative(s.processes, Writes);
  }

  lemma StepInv(initial: int, n: nat, s: State, t: nat)
    requires Inv(initial, n, s) && Enabled(s, t)
    ensures Inv(initial, n, Apply(s, t))
  {
    hide Sum, Scan, Line, Overwrite, Print;
    var r := Apply(s, t);
    SumUpdate(s.processes, t, r.processes[t], Holding);
    SumUpdate(s.processes, t, r.processes[t], Writes);
    SumUpdate(s.processes, t, r.processes[t], Reads);
    if Holding(s.processes[t]) == 1 { ReadsAndWrites(initial, n, s, t); }
    if s.processes[t].pc.Write? {
      WritesBounded(initial, n, s, t);
      WrittenReadsBack(s.file, s.processes[t].seqno);
    }
  }

  lemma InitInv(initial: int, n: nat, file: string)
    requires Scan(Line(file)) == Some(initial) && initial + ROUNDS * n <= LONG_MAX && initial >= -LONG_MAX - 1
    ensures Inv(initial, n, Init(file, n))
  {
    var ps := Init(file, n).processes;
    SumConstant(ps, Holding, 0);
    SumConstant(ps, Writes, 0);
    SumConstant(ps, Reads, 0);
  }

  lemma {:induction false} RunInv(initial: int, n: nat, s: State, run: seq<nat>)
    requires Inv(initial, n, s) && Legal(s, run)
    ensures Inv(initial, n, Exec(s, run))
    decreases |run|
  {
    if run != [] {
      StepInv(initial, n, s, run[0]);
      RunInv(initial, n, Apply(s, run[0]), run[1..]);
    }
  }

  // ----- the result

  function StepsLeft(p: Process): int {
    4 * (ROUNDS - p.round) - (match p.pc case Lock => 0 case Read => 1 case Write => 2 case Unlock => 3 case Done => 0)
  }

  lemma {:induction false} RunBounded(initial: int, n: nat, s: State, run: seq<nat>)
    requires Inv(initial, n, s) && Legal(s, run)
    ensures |run| <= Sum(s.processes, StepsLeft)
    decreases |run|
  {
    SumNonNegative(s.processes, StepsLeft);
    if run != [] {
      StepInv(initial, n, s, run[0]);
      SumUpdate(s.processes, run[0], Apply(s, run[0]).processes[run[0]], StepsLeft);
      RunBounded(initial, n, Apply(s, run[0]), run[1..]);
    }
  }

  ghost predicate Stuck(s: State) {
    forall t: nat | t < |s.processes| :: !Enabled(s, t)
  }

  lemma StuckIsDone(initial: int, n: nat, s: State)
    requires Inv(initial, n, s) && Stuck(s)
    ensures forall t: nat | t < n :: s.processes[t].pc.Done?
    ensures Sum(s.processes, Writes) == ROUNDS * n == Sum(s.processes, Reads)
  {
    forall t: nat | t < n ensures Holding(s.processes[t]) == 0 { assert !Enabled(s, t); }
    SumConstant(s.processes, Holding, 0);
    forall t: nat | t < n ensures s.processes[t].pc.Done? { assert !Enabled(s, t); }
    SumConstant(s.processes, Writes, ROUNDS);
    SumConstant(s.processes, Reads, ROUNDS);
  }

  /** For any number of processes and any interleaving, starting without the lock file from a file
   *  that reads as `initial`: the printed numbers are initial, initial + 1, ... without gap or
   *  repetition; every run takes a bounded number of successful steps; and when it ends every
   *  process has done its rounds and the file reads as initial + 20 per process. */
  lemma {:induction false} CountsEveryRound(initial: int, n: nat, file: string, run: seq<nat>)
    requires Scan(Line(file)) == Some(initial) && initial + 20 * n <= LONG_MAX && initial >= -LONG_MAX - 1
    requires Legal(Init(file, n), run)
    ensures |run| <= 80 * n
    ensures var s := Exec(Init(file, n), run);
            && (forall i | 0 <= i < |s.printed| :: s.printed[i] == initial + i)
            && (Stuck(s) ==>
                  && (forall t: nat | t < n :: t < |s.processes| && s.processes[t].pc.Done?)
                  && |s.printed| == 20 * n
                  && Scan(Line(s.file)) == Some(initial + 20 * n))
  {
    InitInv(initial, n, file);
    RunInv(initial, n, Init(file, n), run);
    SumConstant(Init(file, n).processes, StepsLeft, 4 * ROUNDS);
    RunBounded(initial, n, Init(file, n), run);
    var s := Exec(Init(file, n), run);
    if Stuck(s) { StuckIsDone(initial, n, s); }
  }

  // ----- the program

  /** The two files and the processes' own variables. */
  class Program {
    var file: string
    var lockFile: bool
    var processes: seq<Process>
    var printed: seq<int>

    function View(): State
      reads this
    {
      State(file, lockFile, processes, printed)
    }

    constructor (file: string, n: nat)
      ensures View() == Init(file, n)
    {
      this.file, lockFile, printed := file, false, [];
      processes := seq(n, _ => Process(Lock, 0, 0));
    }

    /** The next step of process `t` in the loop of main(). */
    method Advance(t: nat)
      requires Enabled(View(), t)
      modifies this
      ensures View() == Apply(old(View()), t)
    {
      var p := processes[t];
      match p.pc
      case Lock =>
        lockFile := true;
        processes := processes[t := p.(pc := Read)];
      case Read =>
        var line := if |file| <= MAXLINE then file else file[..MAXLINE];
        var seqno := p.seqno;
        var scanned := Scan(line);
        if scanned.Some? { seqno := scanned.value; }
        printed := printed + [seqno];
        seqno := seqno + 1;
        processes := processes[t := p.(pc := Write, seqno := seqno)];
      case Write =>
        file := Overwrite(file, Print(p.seqno) + "\n");
        processes := processes[t := p.(pc := Unlock)];
      case Unlock =>
        lockFile := false;
        processes := processes[t := p.(round := p.round + 1, pc := if p.round + 1 < ROUNDS then Lock else Done)];
    }

    /** All processes under any scheduler: no increment is lost. */
    method RunToTheEnd(ghost initial: int, ghost n: nat)
      requires View() == Init(file, n) && Inv(initial, n, View())
      modifies this
      ensures Scan(Line(file)) == Some(initial + 20 * n)
      ensures |printed| == 20 * n && forall i | 0 <= i < |printed| :: printed[i] == initial + i
    {
      hide Sum, Scan, Line, Overwrite, Print;
      while exists t: nat | t < |processes| :: Enabled(View(), t)
        invariant Inv(initial, n, View())
        decreases Sum(processes, StepsLeft)
      {
        var t: nat :| t < |processes| && Enabled(View(), t);
        StepInv(initial, n, View(), t);
        SumUpdate(processes, t, Apply(View(), t).processes[t], StepsLeft);
        SumNonNegative(processes, StepsLeft);
        Advance(t);
        SumNonNegative(processes, StepsLeft);
      }
      StuckIsDone(initial, n, View());
    }
  }
}
