/** pxsem/mycat2.c: one thread reads a file into a ring of eight blocks, another writes the
 *  blocks out.  The blocks are read and written outside the mutex; only the two counting
 *  semaphores keep the threads apart. */
module MyCat2 {
  import opened Basics

  const NBUFF := 8
  const BUFFSIZE := 256

  /** `n`: how many bytes of `data` the last read() filled; 0 marks the end of the file. */
  datatype Block = Block(data: seq<Byte>, n: nat) {
    ghost predicate Valid() { n <= BUFFSIZE && |data| == BUFFSIZE }
    function Bytes(): seq<Byte> { if n <= |data| then data[..n] else [] }
  }

  datatype ProducerPc = PWaitEmpty | PWaitMutex | PPostMutex | PRead | PPostStored | PPostLast | PDone
  datatype ConsumerPc = CWaitStored | CWaitMutex | CPostMutex | CWrite | CPostEmpty | CDone

  /** `pi` and `ci`: the threads' own variables i.  `nput` and `nget` count the blocks filled and
   *  drained; the source has no such counters. */
  datatype State = State(rest: seq<Byte>, buff: seq<Block>, mutex: int, nempty: int, nstored: int,
                         p: ProducerPc, pi: nat, c: ConsumerPc, ci: nat,
                         output: seq<Byte>, nput: nat, nget: nat)

  /** `k`: how many bytes read() returns, if the step reads. */
  datatype Step = Produce(k: nat) | Consume

  ghost function Init(file: seq<Byte>): State {
    State(file, seq(NBUFF, _ => Block(seq(BUFFSIZE, _ => 0), 0)), 1, NBUFF, 0,
          PWaitEmpty, 0, CWaitStored, 0, [], 0, 0)
  }

  /** read() returns 0 at the end of the file, else any positive number of bytes that fit. */
  predicate ReadSize(rest: seq<Byte>, k: nat) {
    if rest == [] then k == 0 else 0 < k <= BUFFSIZE && k <= |rest|
  }

  predicate Enabled(s: State, step: Step) {
    match step
    case Produce(k) =>
      (match s.p
       case PWaitEmpty => s.nempty > 0
       case PWaitMutex => s.mutex > 0
       case PRead => s.pi < |s.buff| && ReadSize(s.rest, k)
       case PDone => false
       case _ => true)
    case Consume =>
      (match s.c
       case CWaitStored => s.nstored > 0
       case CWaitMutex => s.mutex > 0
       case CWrite => s.ci < |s.buff|
       case CDone => false
       case _ => true)
  }

  function Wrap(i: nat): nat { if i + 1 >= NBUFF then 0 else i + 1 }

  function Fill(b: Block, chunk: seq<Byte>): Block {
    Block(chunk + (if |chunk| <= |b.data| then b.data[|chunk|..] else []), |chunk|)
  }

  function Read(s: State, k: nat): State
    requires s.pi < |s.buff| && k <= |s.rest|
  {
    var filled := s.(rest := s.rest[k..], buff := s.buff[s.pi := Fill(s.buff[s.pi], s.rest[..k])], nput := s.nput + 1);
    if k == 0 then filled.(p := PPostLast) else filled.(p := PPostStored, pi := Wrap(s.pi))
  }

  function Write(s: State): State
    requires s.ci < |s.buff|
  {
    if s.buff[s.ci].n == 0 then s.(c := CDone)
    else s.(output := s.output + s.buff[s.ci].Bytes(), c := CPostEmpty, ci := Wrap(s.ci), nget := s.nget + 1)
  }

  function Apply(s: State, step: Step): State
    requires Enabled(s, step)
  {
    match step
    case Produce(k) =>
      (match s.p
       case PWaitEmpty => s.(nempty := s.nempty - 1, p := PWaitMutex)
       case PWaitMutex => s.(mutex := s.mutex - 1, p := PPostMutex)
       case PPostMutex => s.(mutex := s.mutex + 1, p := PRead)
       case PRead => Read(s, k)
       case PPostStored => s.(nstored := s.nstored + 1, p := PWaitEmpty)
       case PPostLast => s.(nstored := s.nstored + 1, p := PDone))
    case Consume =>
      (match s.c
       case CWaitStored => s.(nstored := s.nstored - 1, c := CWaitMutex)
       case CWaitMutex => s.(mutex := s.mutex - 1, c := CPostMutex)
       case CPostMutex => s.(mutex := s.mutex + 1, c := CWrite)
       case CWrite => Write(s)
       case CPostEmpty => s.(nempty := s.nempty + 1, c := CWaitStored))
  }

  ghost predicate Legal(s: State, steps: seq<Step>)
    decreases |steps|
  {
    steps == [] || (Enabled(s, steps[0]) && Legal(Apply(s, steps[0]), steps[1..]))
  }

  ghost function Exec(s: State, steps: seq<Step>): State
    requires Legal(s, steps)
    decreases |steps|
  {
    if steps == [] then s else Exec(Apply(s, steps[0]), steps[1..])
  }

  // ----- invariant

  function B(b: bool): int { if b then 1 else 0 }

  /** The producer has read the end of the file. */
  predicate AtEnd(s: State) { s.p.PPostLast? || s.p.PDone? }

  ghost predicate Tokens(s: State) {
    && s.mutex >= 0 && s.nempty >= 0 && s.nstored >= 0
    && s.mutex + B(s.p.PPostMutex?) + B(s.c.CPostMutex?) == 1
    && s.nempty + B(s.p in {PWaitMutex, PPostMutex, PRead}) + B(s.c.CPostEmpty?) == NBUFF - (s.nput - s.nget)
    && s.nstored + B(s.p in {PPostStored, PPostLast}) + B(s.c in {CWaitMutex, CPostMutex, CWrite, CDone}) == s.nput - s.nget
  }

  /** Where the ring keeps block `j`. */
  function Place(j: nat): (i: nat)
    ensures i < NBUFF
  {
    j % NBUFF
  }

  /** The bytes in blocks `from` to `to` - 1. */
  function Stored(buff: seq<Block>, from: nat, to: nat): seq<Byte>
    requires |buff| == NBUFF
    decreases if from < to then to - from else 0
  {
    if from >= to then [] else buff[Place(from)].Bytes() + Stored(buff, from + 1, to)
  }

  /** Block `j` is the empty one that marks the end. */
  predicate IsLast(s: State, j: nat) { AtEnd(s) && j + 1 == s.nput }

  ghost predicate Ring(file: seq<Byte>, s: State) {
    && |s.buff| == NBUFF && (forall i | 0 <= i < NBUFF :: s.buff[i].Valid())
    && (if AtEnd(s) then s.rest == [] && s.nput > s.nget else s.pi == Place(s.nput))
    && s.pi < NBUFF
    && s.ci == Place(s.nget)
    && (forall j: nat {:trigger IsLast(s, j)} | s.nget <= j < s.nput :: s.buff[Place(j)].n == 0 <==> IsLast(s, j))
    && (s.c.CDone? ==> IsLast(s, s.nget))
    && file == s.output + Stored(s.buff, s.nget, s.nput) + s.rest
  }

  ghost predicate Inv(file: seq<Byte>, s: State) { Tokens(s) && Ring(file, s) }

  lemma Distinct(a: nat, b: nat)
    requires a < b < a + NBUFF
    ensures Place(a) != Place(b)
  {
  }

  lemma StoredStep(buff: seq<Block>, from: nat, to: nat)
    requires |buff| == NBUFF
    ensures Stored(buff, from, to) == if from >= to then [] else buff[Place(from)].Bytes() + Stored(buff, from + 1, to)
  {
  }

  /** Filling the next place keeps the stored blocks and appends the new one. */
  lemma {:induction false} StoredAppend(buff: seq<Block>, from: nat, to: nat, b: Block)
    requires |buff| == NBUFF && from <= to < from + NBUFF
    ensures Stored(buff[Place(to) := b], from, to + 1) == Stored(buff, from, to) + b.Bytes()
    decreases if from < to then to - from else 0
  {
    hide Place, Stored;
    var u, next := buff[Place(to) := b], from + 1;
    StoredStep(u, from, to + 1);
    StoredStep(buff, from, to);
    if from < to {
      Distinct(from, to);
      StoredAppend(buff, next, to, b);
      var first, rest := buff[Place(from)].Bytes(), Stored(buff, next, to);
      assert first + (rest + b.Bytes()) == first + rest + b.Bytes();
    } else {
      StoredStep(u, next, next);
    }
  }

  lemma FillBytes(b: Block, chunk: seq<Byte>)
    requires b.Valid() && |chunk| <= BUFFSIZE
    ensures Fill(b, chunk).Valid() && Fill(b, chunk).Bytes() == chunk && Fill(b, chunk).n == |chunk|
  {
  }

  lemma Regroup(output: seq<Byte>, stored: seq<Byte>, rest: seq<Byte>, k: nat)
    requires k <= |rest|
    ensures output + stored + rest == output + (stored + rest[..k]) + rest[k..]
  {
    assert rest == rest[..k] + rest[k..];
  }

  lemma ReadKeepsRing(file: seq<Byte>, s: State, k: nat)
    requires Inv(file, s) && s.p.PRead? && ReadSize(s.rest, k)
    ensures Ring(file, Read(s, k))
  {
    hide Place, Stored;
    var r := Read(s, k);
    var b := r.buff[s.pi];
    assert s.nput - s.nget < NBUFF;
    StoredAppend(s.buff, s.nget, s.nput, b);
    FillBytes(s.buff[s.pi], s.rest[..k]);
    Regroup(s.output, Stored(s.buff, s.nget, s.nput), s.rest, k);
    forall j: nat | r.nget <= j < r.nput ensures r.buff[Place(j)].n == 0 <==> IsLast(r, j) {
      if j < s.nput {
        Distinct(j, s.nput);
        assert s.buff[Place(j)].n == 0 <==> IsLast(s, j);
      }
    }
    NextPlace(s.nput);
  }

  lemma NextPlace(n: nat)
    ensures Wrap(Place(n)) == Place(n + 1)
  {
  }

  lemma WriteKeepsRing(file: seq<Byte>, s: State)
    requires Inv(file, s) && s.c.CWrite?
    ensures Ring(file, Write(s))
  {
    hide Place;
    var r := Write(s);
    assert s.nget < s.nput;
    assert s.buff[Place(s.nget)].n == 0 <==> IsLast(s, s.nget);
    forall j: nat | r.nget <= j < r.nput ensures r.buff[Place(j)].n == 0 <==> IsLast(r, j) {
      assert s.buff[Place(j)].n == 0 <==> IsLast(s, j);
    }
    NextPlace(s.nget);
  }

  lemma StepInv(file: seq<Byte>, s: State, step: Step)
    requires Inv(file, s) && Enabled(s, step)
    ensures Inv(file, Apply(s, step))
  {
    hide Place, Stored;
    var r := Apply(s, step);
    if step.Produce? && s.p.PRead? {
      ReadKeepsRing(file, s, step.k);
    } else if step.Consume? && s.c.CWrite? {
      WriteKeepsRing(file, s);
    } else {
      forall j: nat | r.nget <= j < r.nput ensures r.buff[Place(j)].n == 0 <==> IsLast(r, j) {
        assert s.buff[Place(j)].n == 0 <==> IsLast(s, j);
      }
    }
  }

  lemma {:induction false} RunInv(file: seq<Byte>, s: State, steps: seq<Step>)
    requires Inv(file, s) && Legal(s, steps)
    ensures Inv(file, Exec(s, steps))
    decreases |steps|
  {
    if steps != [] {
      StepInv(file, s, steps[0]);
      RunInv(file, Apply(s, steps[0]), steps[1..]);
    }
  }

  // ----- every run is finite and copies the file

  function RankP(p: ProducerPc): nat {
    match p
    case PPostStored => 6 case PWaitEmpty => 5 case PWaitMutex => 4 case PPostMutex => 3
    case PRead => 2 case PPostLast => 1 case PDone => 0
  }

  function RankC(c: ConsumerPc): nat {
    match c
    case CPostEmpty => 5 case CWaitStored => 4 case CWaitMutex => 3 case CPostMutex => 2
    case CWrite => 1 case CDone => 0
  }

  ghost function Remaining(file: seq<Byte>, s: State): int {
    6 * |s.rest| + 5 * (|file| - |s.output|) + RankP(s.p) + RankC(s.c)
  }

  lemma RemainingDecreases(file: seq<Byte>, s: State, step: Step)
    requires Inv(file, s) && Enabled(s, step)
    ensures 0 <= Remaining(file, Apply(s, step)) < Remaining(file, s)
  {
    hide Place, Stored;
    StepInv(file, s, step);
    if step.Consume? && s.c.CWrite? { assert s.buff[s.ci].Valid(); }
  }

  lemma {:induction false} RunBounded(file: seq<Byte>, s: State, steps: seq<Step>)
    requires Inv(file, s) && Legal(s, steps)
    ensures |steps| <= Remaining(file, s)
    decreases |steps|
  {
    if steps != [] {
      StepInv(file, s, steps[0]);
      RemainingDecreases(file, s, steps[0]);
      RunBounded(file, Apply(s, steps[0]), steps[1..]);
    }
  }

  ghost predicate Stuck(s: State) {
    forall step :: !Enabled(s, step)
  }

  lemma StuckIsDone(file: seq<Byte>, s: State)
    requires Inv(file, s) && Stuck(s)
    ensures s.p.PDone? && s.c.CDone?
  {
    assert !Enabled(s, Consume);
    var k := if |s.rest| < BUFFSIZE then |s.rest| else BUFFSIZE;
    assert !Enabled(s, Produce(k));
  }

  /** For any file and any sizes that read() returns: the two threads are never at the same place
   *  of the ring at once; what was written, what the ring holds and what is unread make up the
   *  file; every run takes a bounded number of steps; and a run that cannot go on has returned
   *  from both threads with the whole file written. */
  lemma {:induction false} CopiesTheFile(file: seq<Byte>, steps: seq<Step>)
    requires Legal(Init(file), steps)
    ensures |steps| <= 11 * |file| + 9
    ensures var s := Exec(Init(file), steps);
            && |s.buff| == NBUFF
            && (s.p.PRead? && s.c.CWrite? ==> s.pi != s.ci)
            && file == s.output + Stored(s.buff, s.nget, s.nput) + s.rest
            && (Stuck(s) ==> s.p.PDone? && s.c.CDone?)
            && (s.c.CDone? ==> s.output == file)
  {
    assert Inv(file, Init(file));
    RunInv(file, Init(file), steps);
    RunBounded(file, Init(file), steps);
    var s := Exec(Init(file), steps);
    if s.p.PRead? && s.c.CWrite? { Distinct(s.nget, s.nput); }
    if Stuck(s) { StuckIsDone(file, s); }
    if s.c.CDone? { Finished(file, s); }
  }

  // ----- the program

  /** The structure `shared` and the two threads. */
  class Program {
    const buff: array<Block>
    var rest: seq<Byte>
    var mutex: int
    var nempty: int
    var nstored: int
    var p: ProducerPc
    var pi: nat
    var c: ConsumerPc
    var ci: nat
    var output: seq<Byte>
    ghost var nput: nat
    ghost var nget: nat

    ghost function View(): State
      reads this, buff
    {
      State(rest, buff[..], mutex, nempty, nstored, p, pi, c, ci, output, nput, nget)
    }

    constructor (file: seq<Byte>)
      ensures fresh(buff) && View() == Init(file) && Inv(file, View())
    {
      buff := new Block[NBUFF](_ => Block(seq(BUFFSIZE, _ => 0), 0));
      rest, output := file, [];
      mutex, nempty, nstored := 1, NBUFF, 0;
      p, pi, c, ci, nput, nget := PWaitEmpty, 0, CWaitStored, 0, 0, 0;
      new;
      assert View() == Init(file);
    }

    /** The next step of produce(); `k`: what read() returns if this step reads. */
    method Produce(k: nat)
      requires buff.Length == NBUFF && Enabled(View(), Step.Produce(k))
      modifies this, buff
      ensures View() == Apply(old(View()), Step.Produce(k))
    {
      match p
      case PWaitEmpty => nempty := nempty - 1; p := PWaitMutex;
      case PWaitMutex => mutex := mutex - 1; p := PPostMutex;
      case PPostMutex => mutex := mutex + 1; p := PRead;
      case PRead =>
        buff[pi] := Fill(buff[pi], rest[..k]);
        rest := rest[k..];
        nput := nput + 1;
        if buff[pi].n == 0 {
          p := PPostLast;
        } else {
          pi := pi + 1;
          if pi >= NBUFF { pi := 0; }
          p := PPostStored;
        }
      case PPostStored => nstored := nstored + 1; p := PWaitEmpty;
      case PPostLast => nstored := nstored + 1; p := PDone;
    }

    /** The next step of consume(). */
    method Consume()
      requires buff.Length == NBUFF && Enabled(View(), Step.Consume)
      modifies this
      ensures View() == Apply(old(View()), Step.Consume)
    {
      match c
      case CWaitStored => nstored := nstored - 1; c := CWaitMutex;
      case CWaitMutex => mutex := mutex - 1; c := CPostMutex;
      case CPostMutex => mutex := mutex + 1; c := CWrite;
      case CWrite =>
        if buff[ci].n == 0 {
          c := CDone;
        } else {
          output := output + buff[ci].Bytes();
          ci := ci + 1;
          if ci >= NBUFF { ci := 0; }
          nget := nget + 1;
          c := CPostEmpty;
        }
      case CPostEmpty => nempty := nempty + 1; c := CWaitStored;
    }

    /** Both threads under any scheduler and any reads: the whole file is written. */
    method RunToTheEnd(file: seq<Byte>)
      requires View() == Init(file) && Inv(file, View())
      modifies this, buff
      ensures p.PDone? && c.CDone? && output == file
    {
      hide Tokens, Stored;
      while !p.PDone? || !c.CDone?
        invariant Inv(file, View())
        decreases Remaining(file, View())
      {
        hide Ring, Inv;
        OneCanGoOn(file, View());
        var k: nat :| k <= BUFFSIZE && ReadSize(rest, k);
        var producerFirst: bool := *;
        if CanProduce(p, nempty, mutex) && (producerFirst || !CanConsume(c, nstored, mutex)) {
          StepInv(file, View(), Step.Produce(k));
          RemainingDecreases(file, View(), Step.Produce(k));
          Produce(k);
        } else {
          StepInv(file, View(), Step.Consume);
          RemainingDecreases(file, View(), Step.Consume);
          Consume();
        }
      }
      Finished(file, View());
    }
  }

  predicate CanProduce(p: ProducerPc, nempty: int, mutex: int) {
    match p case PWaitEmpty => nempty > 0 case PWaitMutex => mutex > 0 case PDone => false case _ => true
  }

  predicate CanConsume(c: ConsumerPc, nstored: int, mutex: int) {
    match c case CWaitStored => nstored > 0 case CWaitMutex => mutex > 0 case CDone => false case _ => true
  }

  /** Unless both have returned, one of the threads can go on. */
  lemma OneCanGoOn(file: seq<Byte>, s: State)
    requires Inv(file, s) && !(s.p.PDone? && s.c.CDone?)
    ensures |s.buff| == NBUFF
    ensures exists k: nat :: k <= BUFFSIZE && ReadSize(s.rest, k)
    ensures CanProduce(s.p, s.nempty, s.mutex) || CanConsume(s.c, s.nstored, s.mutex)
    ensures CanConsume(s.c, s.nstored, s.mutex) ==> Enabled(s, Consume)
    ensures CanProduce(s.p, s.nempty, s.mutex) ==> forall k: nat | ReadSize(s.rest, k) :: Enabled(s, Produce(k))
  {
    assert ReadSize(s.rest, if |s.rest| < BUFFSIZE then |s.rest| else BUFFSIZE);
  }

  lemma Finished(file: seq<Byte>, s: State)
    requires Inv(file, s) && s.c.CDone?
    ensures s.output == file
  {
    assert IsLast(s, s.nget) && s.buff[Place(s.nget)].n == 0;
    assert Stored(s.buff, s.nget, s.nput) == s.buff[Place(s.nget)].Bytes() + Stored(s.buff, s.nget + 1, s.nput);
  }
}
