/** The reader/writer lock of mutex/my_rwlock: three counters under one mutex, one condition
 *  variable for readers, one for writers, writers preferred.
 *
 *  A step is one stretch of code that a thread runs while it holds the lock's mutex: from
 *  taking it to releasing it or to going to sleep.  Any number of threads; a condition
 *  variable may wake a sleeper without a signal (`SpuriousWake`). */
module RwLock {
  import opened Sums

  /** Asleep on a condition variable, or woken and on its way back to the mutex. */
  datatype Phase = Running | SleepR | WokenR | SleepW | WokenW

  /** `readLocks` and `writeLocks`: how many read and write locks the thread holds. */
  datatype Thread = Thread(phase: Phase, readLocks: nat, writeLocks: nat)

  datatype State = State(refcount: int, nwaitreaders: int, nwaitwriters: int, threads: seq<Thread>)

  datatype Step =
    | RdLock(t: nat) | RdResume(t: nat)
    | WrLock(t: nat) | WrResume(t: nat)
    | TryRdLock(t: nat) | TryWrLock(t: nat)
    | Unlock(t: nat, w: nat)  // w: the writer that pthread_cond_signal picks, if it wakes one
    | SpuriousWake(t: nat)

  ghost function Init(threads: nat): State {
    State(0, 0, 0, seq(threads, _ => Thread(Running, 0, 0)))
  }

  predicate In(s: State, t: nat, phase: Phase) {
    t < |s.threads| && s.threads[t].phase == phase
  }

  ghost predicate Some(s: State, phase: Phase) {
    exists t | 0 <= t < |s.threads| :: s.threads[t].phase == phase
  }

  predicate Holds(th: Thread) {
    th.readLocks > 0 || th.writeLocks > 0
  }

  function Released(refcount: int): int {
    if refcount > 0 then refcount - 1 else 0
  }

  /** Whether the releasing thread signals the writers' condition variable. */
  predicate SignalsWriter(s: State) {
    s.nwaitwriters > 0 && Released(s.refcount) == 0
  }

  /** Only a thread that holds the lock releases it. */
  ghost predicate Enabled(s: State, step: Step) {
    match step
    case RdLock(t) => In(s, t, Running)
    case RdResume(t) => In(s, t, WokenR)
    case WrLock(t) => In(s, t, Running)
    case WrResume(t) => In(s, t, WokenW)
    case TryRdLock(t) => In(s, t, Running)
    case TryWrLock(t) => In(s, t, Running)
    case Unlock(t, w) =>
      && In(s, t, Running) && Holds(s.threads[t])
      && (SignalsWriter(s) && Some(s, SleepW) ==> In(s, w, SleepW))
    case SpuriousWake(t) => In(s, t, SleepR) || In(s, t, SleepW)
  }

  function SetPhase(threads: seq<Thread>, t: nat, phase: Phase): seq<Thread>
    requires t < |threads|
  {
    threads[t := threads[t].(phase := phase)]
  }

  function WakeReader(th: Thread): Thread {
    if th.phase == SleepR then th.(phase := WokenR) else th
  }

  function Broadcast(threads: seq<Thread>): seq<Thread> {
    seq(|threads|, i requires 0 <= i < |threads| => WakeReader(threads[i]))
  }

  /** The reader's wait loop: one evaluation of its condition and what follows. */
  function EnterReader(s: State, t: nat): State
    requires t < |s.threads|
  {
    if s.refcount < 0 || s.nwaitwriters > 0 then
      s.(nwaitreaders := s.nwaitreaders + 1, threads := SetPhase(s.threads, t, SleepR))
    else
      TakeRead(s, t)
  }

  function TakeRead(s: State, t: nat): State
    requires t < |s.threads|
  {
    s.(refcount := s.refcount + 1,
       threads := s.threads[t := Thread(Running, s.threads[t].readLocks + 1, s.threads[t].writeLocks)])
  }

  function EnterWriter(s: State, t: nat): State
    requires t < |s.threads|
  {
    if s.refcount != 0 then
      s.(nwaitwriters := s.nwaitwriters + 1, threads := SetPhase(s.threads, t, SleepW))
    else
      TakeWrite(s, t)
  }

  function TakeWrite(s: State, t: nat): State
    requires t < |s.threads|
  {
    s.(refcount := -1,
       threads := s.threads[t := Thread(Running, s.threads[t].readLocks, s.threads[t].writeLocks + 1)])
  }

  /** The lock `t` gives back: a read lock when readers hold it, else the write lock. */
  function DropHold(refcount: int, th: Thread): Thread {
    if refcount > 0 then th.(readLocks := if th.readLocks > 0 then th.readLocks - 1 else 0)
    else th.(writeLocks := if th.writeLocks > 0 then th.writeLocks - 1 else 0)
  }

  function Release(s: State, t: nat, w: nat): State
    requires t < |s.threads|
  {
    var dropped := s.threads[t := DropHold(s.refcount, s.threads[t])];
    var threads :=
      if s.nwaitwriters > 0 then
        if Released(s.refcount) == 0 && w < |dropped| && dropped[w].phase == SleepW
        then SetPhase(dropped, w, WokenW) else dropped
      else if s.nwaitreaders > 0 then Broadcast(dropped)
      else dropped;
    s.(refcount := Released(s.refcount), threads := threads)
  }

  ghost function Apply(s: State, step: Step): State
    requires Enabled(s, step)
  {
    match step
    case RdLock(t) => EnterReader(s, t)
    case RdResume(t) => EnterReader(s.(nwaitreaders := s.nwaitreaders - 1), t)
    case WrLock(t) => EnterWriter(s, t)
    case WrResume(t) => EnterWriter(s.(nwaitwriters := s.nwaitwriters - 1), t)
    case TryRdLock(t) => if s.refcount < 0 || s.nwaitwriters > 0 then s else TakeRead(s, t)
    case TryWrLock(t) => if s.refcount != 0 then s else TakeWrite(s, t)
    case Unlock(t, w) => Release(s, t, w)
    case SpuriousWake(t) =>
      s.(threads := SetPhase(s.threads, t, if s.threads[t].phase == SleepR then WokenR else WokenW))
  }

  ghost predicate Legal(s: State, steps: seq<Step>)
    decreases |steps|
  {
    steps == [] || (Enabled(s, steps[0]) && Legal(Apply(s, steps[0]), steps[1..]))
  }

  ghost function Exec(s: State, steps: seq<Step>): State
    requires Legal(s, steps)
    decreases |steps|
  {
    if steps == [] then s else Exec(Apply(s, steps[0]), steps[1..])
  }

  // ----- what every reachable state satisfies

  function Reads(th: Thread): int { th.readLocks }
  function Writes(th: Thread): int { th.writeLocks }
  function WaitsR(th: Thread): int { if th.phase == SleepR || th.phase == WokenR then 1 else 0 }
  function WaitsW(th: Thread): int { if th.phase == SleepW || th.phase == WokenW then 1 else 0 }
  function Woken(th: Thread): int { if th.phase == WokenR || th.phase == WokenW then 1 else 0 }

  /** refcount is -1 exactly when one writer and no reader holds the lock, else it is the number
   *  of read locks held; each wait counter is the number of threads in that wait loop. */
  ghost predicate Counted(s: State) {
    && (s.refcount == -1 || s.refcount >= 0)
    && Sum(s.threads, Writes) == (if s.refcount == -1 then 1 else 0)
    && Sum(s.threads, Reads) == (if s.refcount == -1 then 0 else s.refcount)
    && s.nwaitreaders == Sum(s.threads, WaitsR)
    && s.nwaitwriters == Sum(s.threads, WaitsW)
  }

  /** Nobody is left behind: a free lock with waiting writers has a woken writer on its way, and
   *  a reader sleeps only because a writer holds the lock or waits for it. */
  ghost predicate NoneForgotten(s: State) {
    && (s.refcount == 0 && s.nwaitwriters > 0 ==> Some(s, WokenW))
    && (Some(s, SleepR) ==> s.refcount == -1 || s.nwaitwriters > 0)
  }

  ghost predicate Inv(s: State) { Counted(s) && NoneForgotten(s) }

  lemma InitInv(n: nat)
    ensures Inv(Init(n))
  {
    var ts := Init(n).threads;
    SumConstant(ts, Reads, 0);
    SumConstant(ts, Writes, 0);
    SumConstant(ts, WaitsR, 0);
    SumConstant(ts, WaitsW, 0);
  }

  /** How replacing one thread changes each of the four counts. */
  lemma Recount(threads: seq<Thread>, t: nat, th: Thread)
    requires t < |threads|
    ensures Sum(threads[t := th], Reads) == Sum(threads, Reads) - threads[t].readLocks + th.readLocks
    ensures Sum(threads[t := th], Writes) == Sum(threads, Writes) - threads[t].writeLocks + th.writeLocks
    ensures Sum(threads[t := th], WaitsR) == Sum(threads, WaitsR) - WaitsR(threads[t]) + WaitsR(th)
    ensures Sum(threads[t := th], WaitsW) == Sum(threads, WaitsW) - WaitsW(threads[t]) + WaitsW(th)
    ensures Sum(threads[t := th], Woken) == Sum(threads, Woken) - Woken(threads[t]) + Woken(th)
  {
    SumUpdate(threads, t, th, Reads);
    SumUpdate(threads, t, th, Writes);
    SumUpdate(threads, t, th, WaitsR);
    SumUpdate(threads, t, th, WaitsW);
    SumUpdate(threads, t, th, Woken);
  }

  /** One thread's share of each count. */
  lemma Share(s: State, t: nat)
    requires t < |s.threads|
    ensures s.threads[t].readLocks <= Sum(s.threads, Reads)
    ensures s.threads[t].writeLocks <= Sum(s.threads, Writes)
    ensures WaitsR(s.threads[t]) <= Sum(s.threads, WaitsR)
    ensures WaitsW(s.threads[t]) <= Sum(s.threads, WaitsW)
  {
    SumAtLeast(s.threads, t, Reads);
    SumAtLeast(s.threads, t, Writes);
    SumAtLeast(s.threads, t, WaitsR);
    SumAtLeast(s.threads, t, WaitsW);
  }

  lemma {:induction false} BroadcastCounts(threads: seq<Thread>)
    ensures Sum(Broadcast(threads), Reads) == Sum(threads, Reads)
    ensures Sum(Broadcast(threads), Writes) == Sum(threads, Writes)
    ensures Sum(Broadcast(threads), WaitsR) == Sum(threads, WaitsR)
    ensures Sum(Broadcast(threads), WaitsW) == Sum(threads, WaitsW)
  {
    SumPointwise(Broadcast(threads), Reads, threads, Reads);
    SumPointwise(Broadcast(threads), Writes, threads, Writes);
    SumPointwise(Broadcast(threads), WaitsR, threads, WaitsR);
    SumPointwise(Broadcast(threads), WaitsW, threads, WaitsW);
  }

  /** A holder sees a count it can give back: unlock's error exit, which would return with the
   *  mutex locked, is never taken. */
  lemma HolderMayRelease(s: State, t: nat)
    requires Counted(s) && t < |s.threads| && Holds(s.threads[t])
    ensures s.refcount > 0 || s.refcount == -1
    ensures s.refcount > 0 ==> s.threads[t].readLocks > 0 && s.threads[t].writeLocks == 0
    ensures s.refcount == -1 ==> s.threads[t].writeLocks == 1 && s.threads[t].readLocks == 0
  {
    Share(s, t);
  }

  lemma WaitingWriterExists(s: State)
    requires Counted(s) && s.nwaitwriters > 0
    ensures Some(s, SleepW) || Some(s, WokenW)
  {
    var t := SumWitness(s.threads, WaitsW);
  }

  lemma ReleaseInv(s: State, t: nat, w: nat)
    requires Inv(s) && Enabled(s, Unlock(t, w))
    ensures Inv(Release(s, t, w))
  {
    HolderMayRelease(s, t);
    var dropped := s.threads[t := DropHold(s.refcount, s.threads[t])];
    Recount(s.threads, t, dropped[t]);
    var r := Release(s, t, w);
    if s.nwaitwriters > 0 {
      WaitingWriterExists(s);
      if Released(s.refcount) == 0 {
        if Some(s, SleepW) {
          assert dropped[w].phase == SleepW;
          Recount(dropped, w, dropped[w].(phase := WokenW));
          assert r.threads[w].phase == WokenW;
        } else {
          assert r.threads == dropped;
          var k :| 0 <= k < |s.threads| && s.threads[k].phase == WokenW;
          assert dropped[k].phase == WokenW;
        }
      }
    } else {
      BroadcastCounts(dropped);
      if s.nwaitreaders <= 0 && Some(r, SleepR) {
        var k :| 0 <= k < |r.threads| && r.threads[k].phase == SleepR;
        assert s.threads[k].phase == SleepR;
        Share(s, k);
      }
    }
  }

  lemma SleepersAfter(s: State, t: nat, th: Thread)
    requires t < |s.threads| && th.phase != SleepR
    ensures var r := s.(threads := s.threads[t := th]); Some(r, SleepR) ==> Some(s, SleepR)
    ensures s.threads[t].phase != WokenW || th.phase == WokenW ==>
              Some(s, WokenW) ==> Some(s.(threads := s.threads[t := th]), WokenW)
  {
    var r := s.(threads := s.threads[t := th]);
    if Some(r, SleepR) {
      var k :| 0 <= k < |r.threads| && r.threads[k].phase == SleepR;
      assert s.threads[k].phase == SleepR;
    }
    if (s.threads[t].phase != WokenW || th.phase == WokenW) && Some(s, WokenW) {
      var k :| 0 <= k < |s.threads| && s.threads[k].phase == WokenW;
      assert r.threads[k].phase == WokenW;
    }
  }

  lemma ReaderInv(s: State, t: nat, resumed: bool)
    requires Inv(s) && In(s, t, if resumed then WokenR else Running)
    ensures Inv(EnterReader(if resumed then s.(nwaitreaders := s.nwaitreaders - 1) else s, t))
  {
    var r := EnterReader(if resumed then s.(nwaitreaders := s.nwaitreaders - 1) else s, t);
    Recount(s.threads, t, r.threads[t]);
    Share(s, t);
    SumNonNegative(s.threads, WaitsW);
    if Some(s, WokenW) {
      var k :| 0 <= k < |s.threads| && s.threads[k].phase == WokenW;
      assert r.threads[k].phase == WokenW;
    }
    if r.threads[t].phase != SleepR { SleepersAfter(s, t, r.threads[t]); }
  }

  lemma WriterInv(s: State, t: nat, resumed: bool)
    requires Inv(s) && In(s, t, if resumed then WokenW else Running)
    ensures Inv(EnterWriter(if resumed then s.(nwaitwriters := s.nwaitwriters - 1) else s, t))
  {
    var r := EnterWriter(if resumed then s.(nwaitwriters := s.nwaitwriters - 1) else s, t);
    Recount(s.threads, t, r.threads[t]);
    SleepersAfter(s, t, r.threads[t]);
  }

  /** Every step keeps the invariant. */
  lemma StepInv(s: State, step: Step)
    requires Inv(s) && Enabled(s, step)
    ensures Inv(Apply(s, step))
  {
    match step
    case RdLock(t) => ReaderInv(s, t, false);
    case RdResume(t) => ReaderInv(s, t, true);
    case WrLock(t) => WriterInv(s, t, false);
    case WrResume(t) => WriterInv(s, t, true);
    case TryRdLock(t) =>
      if !(s.refcount < 0 || s.nwaitwriters > 0) { ReaderInv(s, t, false); }
    case TryWrLock(t) =>
      if s.refcount == 0 { WriterInv(s, t, false); }
    case Unlock(t, w) => ReleaseInv(s, t, w);
    case SpuriousWake(t) =>
      var th := Apply(s, step).threads[t];
      Recount(s.threads, t, th);
      SleepersAfter(s, t, th);
  }

  lemma {:induction false} RunInv(s: State, steps: seq<Step>)
    requires Inv(s) && Legal(s, steps)
    ensures Inv(Exec(s, steps))
    decreases |steps|
  {
    if steps != [] {
      StepInv(s, steps[0]);
      RunInv(Apply(s, steps[0]), steps[1..]);
    }
  }

  // ----- the main results

  /** For any number of threads and any interleaving: when nobody holds the lock and no woken
   *  thread is on its way, nobody sleeps; and the lock is exclusive. */
  lemma {:induction false} NobodyStranded(n: nat, steps: seq<Step>, i: nat, j: nat)
    requires Legal(Init(n), steps)
    ensures var s := Exec(Init(n), steps);
            && ((forall t | 0 <= t < |s.threads| :: !Holds(s.threads[t])) && !Some(s, WokenR) && !Some(s, WokenW)
                ==> !Some(s, SleepR) && !Some(s, SleepW))
            && (i < |s.threads| && j < |s.threads| && s.threads[i].writeLocks > 0 ==>
                  s.threads[i].readLocks == 0 && (j != i ==> !Holds(s.threads[j])))
  {
    InitInv(n);
    RunInv(Init(n), steps);
    var s := Exec(Init(n), steps);
    if (forall t | 0 <= t < |s.threads| :: !Holds(s.threads[t])) && !Some(s, WokenR) && !Some(s, WokenW) {
      FreeMeansZero(s);
      if s.nwaitwriters > 0 { assert false; }
      if Some(s, SleepW) {
        var k :| 0 <= k < |s.threads| && s.threads[k].phase == SleepW;
        Share(s, k);
        assert false;
      }
    }
    if i < |s.threads| && j < |s.threads| && s.threads[i].writeLocks > 0 {
      HolderMayRelease(s, i);
      Share(s, j);
      if i < j { SumAtLeastTwo(s.threads, i, j, Writes); }
      if j < i { SumAtLeastTwo(s.threads, j, i, Writes); }
    }
  }

  lemma FreeMeansZero(s: State)
    requires Counted(s)
    ensures (forall t | 0 <= t < |s.threads| :: !Holds(s.threads[t])) <==> s.refcount == 0
  {
    if s.refcount == -1 {
      var k := SumWitness(s.threads, Writes);
    } else if s.refcount > 0 {
      var k := SumWitness(s.threads, Reads);
    } else {
      forall t | 0 <= t < |s.threads| ensures !Holds(s.threads[t]) { Share(s, t); }
    }
  }

  /** pthread_rwlock_destroy's quiescence test passes exactly when nobody holds or waits. */
  lemma QuietState(s: State)
    requires Inv(s)
    ensures (s.refcount == 0 && s.nwaitreaders == 0 && s.nwaitwriters == 0) <==>
            (forall t | 0 <= t < |s.threads| :: s.threads[t] == Thread(Running, 0, 0))
  {
    FreeMeansZero(s);
    if s.nwaitreaders > 0 { var k := SumWitness(s.threads, WaitsR); }
    if s.nwaitwriters > 0 { var k := SumWitness(s.threads, WaitsW); }
    SumNonNegative(s.threads, WaitsR);
    SumNonNegative(s.threads, WaitsW);
    if s.refcount == 0 && s.nwaitreaders == 0 && s.nwaitwriters == 0 {
      forall t | 0 <= t < |s.threads| ensures s.threads[t] == Thread(Running, 0, 0) {
        Share(s, t);
      }
    }
  }

  /** Writer preference over runs: while some writer keeps waiting, no reader gets in. */
  lemma {:induction false} WritersGoFirst(s: State, steps: seq<Step>)
    requires Inv(s) && Legal(s, steps)
    requires forall k | 0 <= k <= |steps| :: Legal(s, steps[..k]) && Exec(s, steps[..k]).nwaitwriters > 0
    ensures Sum(Exec(s, steps).threads, Reads) <= Sum(s.threads, Reads)
    decreases |steps|
  {
    if steps != [] {
      var r := Apply(s, steps[0]);
      assert steps[..0] == [] && Exec(s, steps[..0]) == s;
      StepInv(s, steps[0]);
      ReadersDoNotGrow(s, steps[0]);
      forall k | 0 <= k <= |steps[1..]|
        ensures Legal(r, steps[1..][..k]) && Exec(r, steps[1..][..k]).nwaitwriters > 0
      {
        assert steps[..k + 1][1..] == steps[1..][..k];
      }
      WritersGoFirst(r, steps[1..]);
    }
  }

  lemma ReadersDoNotGrow(s: State, step: Step)
    requires Inv(s) && Enabled(s, step) && s.nwaitwriters > 0
    ensures Sum(Apply(s, step).threads, Reads) <= Sum(s.threads, Reads)
  {
    match step
    case Unlock(t, w) =>
      StepInv(s, step);
    case RdLock(t) => Recount(s.threads, t, Apply(s, step).threads[t]);
    case RdResume(t) => Recount(s.threads, t, Apply(s, step).threads[t]);
    case WrLock(t) => Recount(s.threads, t, Apply(s, step).threads[t]);
    case WrResume(t) => Recount(s.threads, t, Apply(s, step).threads[t]);
    case TryRdLock(t) =>
    case TryWrLock(t) => Recount(s.threads, t, TakeWrite(s, t).threads[t]);
    case SpuriousWake(t) => Recount(s.threads, t, Apply(s, step).threads[t]);
  }

  // ----- draining: holders release, woken threads go on, nobody asks for a new lock

  ghost predicate Draining(step: Step) {
    step.Unlock? || step.RdResume? || step.WrResume?
  }

  /** No thread waits for the lock while holding it: such a thread blocks itself. */
  ghost predicate Disciplined(s: State) {
    forall t: nat | t < |s.threads| :: s.threads[t].phase != Running ==> !Holds(s.threads[t])
  }

  ghost function Work(s: State): int {
    2 * (Sum(s.threads, WaitsR) + Sum(s.threads, WaitsW)) + Sum(s.threads, Reads) + Sum(s.threads, Writes)
  }

  /** How many draining steps can still follow. */
  ghost function DrainBound(s: State): int {
    Work(s) * (|s.threads| + 1) + Sum(s.threads, Woken)
  }

  lemma DrainBoundNonNegative(s: State)
    ensures 0 <= Work(s) && 0 <= DrainBound(s)
  {
    SumNonNegative(s.threads, WaitsR);
    SumNonNegative(s.threads, WaitsW);
    SumNonNegative(s.threads, Reads);
    SumNonNegative(s.threads, Writes);
    SumNonNegative(s.threads, Woken);
  }

  lemma DrainWork(s: State, step: Step)
    requires Inv(s) && Enabled(s, step) && Draining(step)
    ensures var r := Apply(s, step);
            || Work(r) < Work(s)
            || (Work(r) == Work(s) && Sum(r.threads, Woken) < Sum(s.threads, Woken))
  {
    if step.Unlock? {
      ReleaseWork(s, step.t, step.w);
    } else {
      Recount(s.threads, step.t, Apply(s, step).threads[step.t]);
    }
  }

  lemma DrainBoundDecreases(s: State, step: Step)
    requires Inv(s) && Enabled(s, step) && Draining(step)
    ensures DrainBound(Apply(s, step)) < DrainBound(s)
  {
    var r := Apply(s, step);
    assert |r.threads| == |s.threads|;
    DrainWork(s, step);
    SumAtMost(r.threads, Woken, 1);
    SumNonNegative(s.threads, Woken);
    Dominates(Work(r), Work(s), |s.threads| + 1);
  }

  lemma {:induction false} Dominates(a: int, b: int, n: nat)
    ensures a < b ==> a * n + n <= b * n
    decreases b - a
  {
    if a < b - 1 { Dominates(a, b - 1, n); }
    assert (b - 1) * n + n == b * n;
  }

  lemma ReleaseWork(s: State, t: nat, w: nat)
    requires Inv(s) && Enabled(s, Unlock(t, w))
    ensures Work(Release(s, t, w)) == Work(s) - 1
  {
    HolderMayRelease(s, t);
    var dropped := s.threads[t := DropHold(s.refcount, s.threads[t])];
    Recount(s.threads, t, dropped[t]);
    BroadcastCounts(dropped);
    if w < |dropped| { Recount(dropped, w, dropped[w].(phase := WokenW)); }
  }

  lemma DrainKeepsDiscipline(s: State, step: Step)
    requires Inv(s) && Disciplined(s) && Enabled(s, step) && Draining(step)
    ensures Disciplined(Apply(s, step))
  {
    var r := Apply(s, step);
    if step.Unlock? { HolderMayRelease(s, step.t); }
    forall k | 0 <= k < |r.threads| && r.threads[k].phase != Running ensures !Holds(r.threads[k]) {
      assert s.threads[k].phase != Running;
    }
  }

  ghost predicate Quiet(s: State) {
    forall t | 0 <= t < |s.threads| :: s.threads[t] == Thread(Running, 0, 0)
  }

  ghost predicate DrainStuck(s: State) {
    forall step | Draining(step) :: !Enabled(s, step)
  }

  /** When nothing is left to release or to resume, everybody has been served if and only if
   *  nobody waits while holding. */
  lemma DrainedWhenStuck(s: State)
    requires Inv(s) && DrainStuck(s)
    ensures Quiet(s) <==> Disciplined(s)
  {
    if Disciplined(s) { DisciplinedDrains(s); }
  }

  lemma DisciplinedDrains(s: State)
    requires Inv(s) && DrainStuck(s) && Disciplined(s)
    ensures Quiet(s)
  {
    forall t | 0 <= t < |s.threads| ensures !Holds(s.threads[t]) {
      if Holds(s.threads[t]) {
        assert In(s, t, Running);
        var w: nat := 0;
        if Some(s, SleepW) { w :| 0 <= w < |s.threads| && s.threads[w].phase == SleepW; }
        assert Draining(Unlock(t, w)) && Enabled(s, Unlock(t, w));
      }
    }
    forall t | 0 <= t < |s.threads| ensures !In(s, t, WokenR) && !In(s, t, WokenW) {
      assert Draining(RdResume(t)) && Draining(WrResume(t));
    }
    FreeMeansZero(s);
    if s.nwaitwriters > 0 {
      var k :| 0 <= k < |s.threads| && s.threads[k].phase == WokenW;
      assert In(s, k, WokenW);
    }
    forall t | 0 <= t < |s.threads| ensures s.threads[t].phase == Running {
      Share(s, t);
      assert !In(s, t, WokenR) && !In(s, t, WokenW);
    }
  }

  ghost predicate Drains(s: State, drain: seq<Step>) {
    Legal(s, drain) && forall k | 0 <= k < |drain| :: Draining(drain[k])
  }

  lemma {:induction false} DrainRun(s: State, drain: seq<Step>)
    requires Inv(s) && Drains(s, drain)
    ensures |drain| <= DrainBound(s) && Inv(Exec(s, drain))
    ensures Disciplined(s) ==> Disciplined(Exec(s, drain))
    decreases |drain|
  {
    DrainBoundNonNegative(s);
    if drain != [] {
      var r := Apply(s, drain[0]);
      StepInv(s, drain[0]);
      if Disciplined(s) { DrainKeepsDiscipline(s, drain[0]); }
      DrainBoundDecreases(s, drain[0]);
      assert forall k | 0 <= k < |drain[1..]| :: drain[1..][k] == drain[k + 1];
      DrainRun(r, drain[1..]);
    }
  }

  /** From every state some drain goes on to its end. */
  lemma {:induction false} DrainToTheEnd(s: State) returns (drain: seq<Step>)
    requires Inv(s)
    ensures Drains(s, drain) && DrainStuck(Exec(s, drain))
    decreases DrainBound(s)
  {
    hide Inv, Enabled, Apply, DrainBound;
    DrainBoundNonNegative(s);
    if DrainStuck(s) {
      drain := [];
    } else {
      var step :| Draining(step) && Enabled(s, step);
      var r := Apply(s, step);
      StepInv(s, step);
      DrainBoundDecreases(s, step);
      DrainBoundNonNegative(r);
      var rest := DrainToTheEnd(r);
      drain := [step] + rest;
      assert drain[1..] == rest;
    }
  }

  // ----- a thread that waits for the lock while it holds it

  ghost predicate WaitsHolding(s: State, t: nat) {
    t < |s.threads| && s.threads[t].phase != Running && Holds(s.threads[t])
  }

  /** What such a thread waits for cannot happen before it releases. */
  ghost predicate NoWayOut(s: State) {
    forall t: nat | WaitsHolding(s, t) :: s.refcount == -1 || s.nwaitwriters > 0
  }

  lemma StepNoWayOut(s: State, step: Step)
    requires Inv(s) && NoWayOut(s) && Enabled(s, step)
    ensures NoWayOut(Apply(s, step))
  {
    var r := Apply(s, step);
    forall t: nat | WaitsHolding(r, t) ensures r.refcount == -1 || r.nwaitwriters > 0 {
      Share(s, t);
      if t == step.t {
        SumNonNegative(s.threads, WaitsW);
      } else {
        assert WaitsHolding(s, t);
        if step.Unlock? { HolderMayRelease(s, step.t); ShareTwo(s, t, step.t); }
      }
    }
  }

  lemma ShareTwo(s: State, t: nat, u: nat)
    requires t < |s.threads| && u < |s.threads| && t != u
    ensures s.threads[t].writeLocks + s.threads[u].writeLocks <= Sum(s.threads, Writes)
  {
    if t < u { SumAtLeastTwo(s.threads, t, u, Writes); } else { SumAtLeastTwo(s.threads, u, t, Writes); }
  }

  lemma {:induction false} RunNoWayOut(s: State, steps: seq<Step>)
    requires Inv(s) && NoWayOut(s) && Legal(s, steps)
    ensures NoWayOut(Exec(s, steps))
    decreases |steps|
  {
    hide Inv, Enabled, Apply, NoWayOut;
    if steps != [] {
      StepInv(s, steps[0]);
      StepNoWayOut(s, steps[0]);
      RunNoWayOut(Apply(s, steps[0]), steps[1..]);
    }
  }

  lemma StillWaitsHolding(s: State, step: Step, t: nat)
    requires Inv(s) && NoWayOut(s) && Enabled(s, step) && WaitsHolding(s, t)
    ensures WaitsHolding(Apply(s, step), t)
    ensures Apply(s, step).threads[t].readLocks == s.threads[t].readLocks
  {
    Share(s, t);
  }

  /** A thread that waits while holding is never served, whatever anybody does. */
  lemma {:induction false} NeverServed(s: State, steps: seq<Step>, t: nat)
    requires Inv(s) && NoWayOut(s) && Legal(s, steps) && WaitsHolding(s, t)
    ensures WaitsHolding(Exec(s, steps), t)
    decreases |steps|
  {
    hide Inv, Enabled, Apply, NoWayOut, WaitsHolding;
    if steps != [] {
      StepInv(s, steps[0]);
      StepNoWayOut(s, steps[0]);
      StillWaitsHolding(s, steps[0], t);
      NeverServed(Apply(s, steps[0]), steps[1..], t);
    }
  }

  /** However the holders and the woken threads are scheduled, everybody gets served. */
  ghost predicate EverybodyServed(s: State) {
    forall drain | Drains(s, drain) && DrainStuck(Exec(s, drain)) :: Quiet(Exec(s, drain))
  }

  /** In every reachable state, releases and resumptions can take only boundedly many steps in
   *  any order; and they serve everybody, whatever the order, if and only if no thread waits for
   *  the lock while it holds it. */
  lemma {:induction false} EveryWaiterServed(n: nat, steps: seq<Step>, drain: seq<Step>)
    requires Legal(Init(n), steps)
    ensures var s := Exec(Init(n), steps);
            && (Drains(s, drain) ==> |drain| <= DrainBound(s))
            && (EverybodyServed(s) <==> Disciplined(s))
  {
    InitInv(n);
    RunInv(Init(n), steps);
    RunNoWayOut(Init(n), steps);
    var s := Exec(Init(n), steps);
    if Drains(s, drain) { DrainRun(s, drain); }
    if Disciplined(s) {
      forall d | Drains(s, d) && DrainStuck(Exec(s, d)) ensures Quiet(Exec(s, d)) {
        DrainRun(s, d);
        DrainedWhenStuck(Exec(s, d));
      }
    } else {
      var t: nat :| t < |s.threads| && s.threads[t].phase != Running && Holds(s.threads[t]);
      var d := DrainToTheEnd(s);
      NeverServed(s, d, t);
      assert !Quiet(Exec(s, d));
    }
  }

  // ----- a second read lock with a writer in between

  ghost predicate Deadlocked(s: State, t: nat, u: nat) {
    && WaitsHolding(s, t) && s.threads[t].readLocks > 0
    && u < |s.threads| && s.threads[u].phase in {SleepW, WokenW}
  }

  lemma {:induction false} DeadlockStays(s: State, steps: seq<Step>, t: nat, u: nat)
    requires Inv(s) && NoWayOut(s) && Legal(s, steps) && Deadlocked(s, t, u) && t != u
    ensures Deadlocked(Exec(s, steps), t, u)
    decreases |steps|
  {
    hide Inv, NoWayOut;
    if steps != [] {
      StepInv(s, steps[0]);
      StepNoWayOut(s, steps[0]);
      StillWaitsHolding(s, steps[0], t);
      WriterStillWaits(s, steps[0], t, u);
      DeadlockStays(Apply(s, steps[0]), steps[1..], t, u);
    }
  }

  lemma WriterStillWaits(s: State, step: Step, t: nat, u: nat)
    requires Inv(s) && Enabled(s, step) && Deadlocked(s, t, u) && t != u
    ensures u < |Apply(s, step).threads| && Apply(s, step).threads[u].phase in {SleepW, WokenW}
  {
    Share(s, t);
  }

  /** A reader that locks again while a writer waits: neither of the two goes on, ever. */
  lemma RecursiveRead(n: nat) returns (run: seq<Step>)
    requires n >= 2
    ensures Legal(Init(n), run) && run == [RdLock(0), WrLock(1), RdLock(0)]
    ensures forall more | Legal(Exec(Init(n), run), more) :: Deadlocked(Exec(Exec(Init(n), run), more), 0, 1)
  {
    var s := Init(n);
    var a := Apply(s, RdLock(0));
    var b := Apply(a, WrLock(1));
    var d := Apply(b, RdLock(0));
    run := [RdLock(0), WrLock(1), RdLock(0)];
    assert run[1..] == [WrLock(1), RdLock(0)] && run[1..][1..] == [RdLock(0)] && run[1..][1..][1..] == [];
    assert Legal(d, []) && Legal(b, [RdLock(0)]) && Exec(b, [RdLock(0)]) == d;
    assert Legal(a, run[1..]) && Exec(a, run[1..]) == d;
    assert Legal(s, run) && Exec(s, run) == d;
    InitInv(n);
    RunInv(s, run);
    RunNoWayOut(s, run);
    forall more | Legal(d, more) ensures Deadlocked(Exec(d, more), 0, 1) { DeadlockStays(d, more, 0, 1); }
  }

  // ----- starvation

  ghost predicate InReadWait(s: State, t: nat) {
    t < |s.threads| && s.threads[t].phase in {SleepR, WokenR}
  }

  /** Thread `t` is in the reader's wait loop before and after every step of the run. */
  ghost predicate WaitsThroughout(s: State, run: seq<Step>, t: nat)
    requires Legal(s, run)
    decreases |run|
  {
    InReadWait(s, t) && (run != [] ==> WaitsThroughout(Apply(s, run[0]), run[1..], t))
  }

  /** How often the write lock is taken in a run. */
  ghost function Taken(s: State, run: seq<Step>): nat
    requires Legal(s, run)
    decreases |run|
  {
    if run == [] then 0
    else
      var step, r := run[0], Apply(s, run[0]);
      (if step.t < |s.threads| && step.t < |r.threads| && r.threads[step.t].writeLocks > s.threads[step.t].writeLocks
       then 1 else 0) + Taken(r, run[1..])
  }

  /** Some reader waits while the write lock is taken `k` times. */
  ghost predicate Starves(n: nat, k: nat) {
    exists before, run, t :: StarvingRun(n, before, run, t, k)
  }

  ghost predicate StarvingRun(n: nat, before: seq<Step>, run: seq<Step>, t: nat, k: nat) {
    && Legal(Init(n), before) && Legal(Exec(Init(n), before), run)
    && WaitsThroughout(Exec(Init(n), before), run, t)
    && Taken(Exec(Init(n), before), run) >= k
  }

  lemma {:induction false} TwoSteps(s: State, x: Step, y: Step)
    requires Enabled(s, x) && Enabled(Apply(s, x), y)
    ensures Legal(s, [x, y]) && Exec(s, [x, y]) == Apply(Apply(s, x), y)
  {
    hide Enabled, Apply;
    var r, q, two, one := Apply(s, x), Apply(Apply(s, x), y), [x, y], [y];
    assert two[1..] == one && one[1..] == [];
    assert Legal(q, []) && Exec(q, []) == q;
    assert Legal(r, one) && Exec(r, one) == q;
  }

  /** Thread 0 holds the write lock, thread 1 sleeps for a read lock. */
  ghost predicate WriterAndReader(s: State) {
    && s.refcount == -1 && s.nwaitreaders == 1 && s.nwaitwriters == 0 && |s.threads| >= 2
    && s.threads[0] == Thread(Running, 0, 1) && s.threads[1] == Thread(SleepR, 0, 0)
    && forall t: nat | 1 < t < |s.threads| :: s.threads[t] == Thread(Running, 0, 0)
  }

  /** The writer releases, which wakes the reader, but takes the lock again before the reader
   *  comes to look. */
  lemma Overtakes(s: State) returns (a: State, b: State)
    requires WriterAndReader(s)
    ensures Enabled(s, Unlock(0, 0)) && a == Apply(s, Unlock(0, 0)) && InReadWait(a, 1)
    ensures Enabled(a, WrLock(0)) && b == Apply(a, WrLock(0)) && InReadWait(b, 1)
    ensures Enabled(b, RdResume(1)) && Apply(b, RdResume(1)) == s
    ensures |a.threads| == |b.threads| == |s.threads|
    ensures a.threads[0].writeLocks == 0 && b.threads[0].writeLocks == 1
  {
    a := Apply(s, Unlock(0, 0));
    b := Apply(a, WrLock(0));
    assert Apply(b, RdResume(1)).threads == s.threads;
  }

  lemma {:induction false} TakesAgain(s: State, k: nat) returns (run: seq<Step>)
    requires WriterAndReader(s)
    ensures Legal(s, run) && WaitsThroughout(s, run, 1) && Taken(s, run) >= k
  {
    if k == 0 {
      run := [];
    } else {
      var rest := TakesAgain(s, k - 1);
      var a, b := Overtakes(s);
      hide Enabled, Apply;
      var last := [RdResume(1)] + rest;
      assert last[1..] == rest;
      var two := [WrLock(0)] + last;
      assert two[1..] == last;
      run := [Unlock(0, 0)] + two;
      assert run[1..] == two;
      assert Legal(b, last) && WaitsThroughout(b, last, 1) && Taken(b, last) >= k - 1;
      assert Legal(a, two) && WaitsThroughout(a, two, 1) && Taken(a, two) >= k;
    }
  }

  /** With no second thread nobody takes a lock while a reader waits. */
  lemma {:induction false} AloneTakesNothing(s: State, run: seq<Step>, t: nat)
    requires |s.threads| <= 1 && Legal(s, run) && WaitsThroughout(s, run, t)
    ensures Taken(s, run) == 0
    decreases |run|
  {
    if run != [] { AloneTakesNothing(Apply(s, run[0]), run[1..], t); }
  }

  lemma {:induction false} SameThreads(s: State, run: seq<Step>)
    requires Legal(s, run)
    ensures |Exec(s, run).threads| == |s.threads|
    decreases |run|
  {
    if run != [] { SameThreads(Apply(s, run[0]), run[1..]); }
  }

  /** Writers can take the lock any number of times while one reader waits, if and only if there
   *  are two threads. */
  lemma StarvesIffTwoThreads(n: nat)
    ensures (forall k: nat :: Starves(n, k)) <==> n >= 2
  {
    if n >= 2 {
      TwoSteps(Init(n), WrLock(0), RdLock(1));
      var before := [WrLock(0), RdLock(1)];
      var s := Exec(Init(n), before);
      assert WriterAndReader(s);
      forall k: nat ensures Starves(n, k) {
        var run := TakesAgain(s, k);
        assert StarvingRun(n, before, run, 1, k);
      }
    } else if Starves(n, 1) {
      var before, run, t :| StarvingRun(n, before, run, t, 1);
      SameThreads(Init(n), before);
      AloneTakesNothing(Exec(Init(n), before), run, t);
      assert false;
    }
  }

  // ----- the lock as the source writes it

  const RW_MAGIC := 0x19283746
  const EINVAL := 22
  const EBUSY := 16

  /** A stretch ends by returning a result or by going to sleep in pthread_cond_wait. */
  datatype Outcome = Returned(code: int) | Waits

  /** Another thread after an unlock: woken if it is the sleeping writer that a signal picks, or a
   *  sleeping reader at a broadcast. */
  function AfterUnlock(threads: seq<Thread>, k: nat, w: nat, signal: bool, broadcast: bool): Thread
    requires k < |threads|
  {
    if signal && k == w && threads[k].phase == SleepW then threads[k].(phase := WokenW)
    else if broadcast && threads[k].phase == SleepR then threads[k].(phase := WokenR)
    else threads[k]
  }

  /** The structure pthread_rwlock_t.  `threads` is what the condition variables and the
   *  callers know: who sleeps, who was woken, who holds what. */
  class Lock {
    var rw_magic: int
    var rw_nwaitreaders: int
    var rw_nwaitwriters: int
    var rw_refcount: int
    ghost var threads: seq<Thread>

    ghost function View(): State
      reads this
    {
      State(rw_refcount, rw_nwaitreaders, rw_nwaitwriters, threads)
    }

    constructor (ghost n: nat)
      ensures rw_magic == RW_MAGIC && View() == Init(n) && Inv(View())
    {
      rw_nwaitreaders, rw_nwaitwriters, rw_refcount, rw_magic := 0, 0, 0, RW_MAGIC;
      threads := Init(n).threads;
      new;
      InitInv(n);
    }

    /** pthread_rwlock_rdlock from taking the mutex on, or (`woken`) from the return of
     *  pthread_cond_wait on, to the next wait or to the end. */
    method RdLock(ghost t: nat, woken: bool) returns (r: Outcome)
      requires Inv(View()) && Enabled(View(), if woken then Step.RdResume(t) else Step.RdLock(t))
      modifies this
      ensures rw_magic == old(rw_magic) && Inv(View())
      ensures old(rw_magic) != RW_MAGIC && !woken ==> r == Returned(EINVAL) && View() == old(View())
      ensures old(rw_magic) == RW_MAGIC || woken ==>
                && View() == Apply(old(View()), if woken then Step.RdResume(t) else Step.RdLock(t))
                && r == if old(rw_refcount) < 0 || old(rw_nwaitwriters) > 0 then Waits else Returned(0)
      ensures old(rw_magic) == RW_MAGIC || woken ==>
                && rw_nwaitwriters == old(rw_nwaitwriters)
                && rw_nwaitreaders == old(rw_nwaitreaders) - (if woken then 1 else 0) + (if r == Waits then 1 else 0)
                && rw_refcount == old(rw_refcount) + (if r == Waits then 0 else 1)
                && var th := old(threads[t]);
                   threads == old(threads)[t := if r == Waits then Thread(SleepR, th.readLocks, th.writeLocks)
                                                else Thread(Running, th.readLocks + 1, th.writeLocks)]
    {
      StepInv(View(), if woken then Step.RdResume(t) else Step.RdLock(t));
      hide Inv;
      if !woken && rw_magic != RW_MAGIC { return Returned(EINVAL); }
      if woken { rw_nwaitreaders := rw_nwaitreaders - 1; }
      if rw_refcount < 0 || rw_nwaitwriters > 0 {
        rw_nwaitreaders := rw_nwaitreaders + 1;
        threads := SetPhase(threads, t, SleepR);
        return Waits;
      }
      rw_refcount := rw_refcount + 1;
      threads := threads[t := Thread(Running, threads[t].readLocks + 1, threads[t].writeLocks)];
      return Returned(0);
    }

    /** pthread_rwlock_wrlock, cut in the same way. */
    method WrLock(ghost t: nat, woken: bool) returns (r: Outcome)
      requires Inv(View()) && Enabled(View(), if woken then Step.WrResume(t) else Step.WrLock(t))
      modifies this
      ensures rw_magic == old(rw_magic) && Inv(View())
      ensures old(rw_magic) != RW_MAGIC && !woken ==> r == Returned(EINVAL) && View() == old(View())
      ensures old(rw_magic) == RW_MAGIC || woken ==>
                && View() == Apply(old(View()), if woken then Step.WrResume(t) else Step.WrLock(t))
                && r == if old(rw_refcount) == 0 then Returned(0) else Waits
      ensures old(rw_magic) == RW_MAGIC || woken ==>
                && rw_nwaitreaders == old(rw_nwaitreaders)
                && rw_nwaitwriters == old(rw_nwaitwriters) - (if woken then 1 else 0) + (if r == Waits then 1 else 0)
                && rw_refcount == (if r == Waits then old(rw_refcount) else -1)
                && var th := old(threads[t]);
                   threads == old(threads)[t := if r == Waits then Thread(SleepW, th.readLocks, th.writeLocks)
                                                else Thread(Running, th.readLocks, th.writeLocks + 1)]
    {
      StepInv(View(), if woken then Step.WrResume(t) else Step.WrLock(t));
      hide Inv;
      if !woken && rw_magic != RW_MAGIC { return Returned(EINVAL); }
      if woken { rw_nwaitwriters := rw_nwaitwriters - 1; }
      if rw_refcount != 0 {
        rw_nwaitwriters := rw_nwaitwriters + 1;
        threads := SetPhase(threads, t, SleepW);
        return Waits;
      }
      rw_refcount := -1;
      threads := threads[t := Thread(Running, threads[t].readLocks, threads[t].writeLocks + 1)];
      return Returned(0);
    }

    method TryRdLock(ghost t: nat) returns (result: int)
      requires Inv(View()) && Enabled(View(), Step.TryRdLock(t))
      modifies this
      ensures rw_magic == old(rw_magic) && Inv(View())
      ensures old(rw_magic) != RW_MAGIC ==> result == EINVAL && View() == old(View())
      ensures old(rw_magic) == RW_MAGIC ==>
                && View() == Apply(old(View()), Step.TryRdLock(t))
                && result == (if old(rw_refcount) < 0 || old(rw_nwaitwriters) > 0 then EBUSY else 0)
                && (result == EBUSY ==> View() == old(View()))
                && (result == 0 ==>
                      && rw_refcount == old(rw_refcount) + 1
                      && rw_nwaitreaders == old(rw_nwaitreaders) && rw_nwaitwriters == old(rw_nwaitwriters)
                      && var th := old(threads[t]);
                         threads == old(threads)[t := Thread(Running, th.readLocks + 1, th.writeLocks)])
    {
      StepInv(View(), Step.TryRdLock(t));
      hide Inv;
      if rw_magic != RW_MAGIC { return EINVAL; }
      result := 0;
      if rw_refcount < 0 || rw_nwaitwriters > 0 {
        result := EBUSY;
      } else {
        rw_refcount := rw_refcount + 1;
        threads := threads[t := Thread(Running, threads[t].readLocks + 1, threads[t].writeLocks)];
      }
    }

    method TryWrLock(ghost t: nat) returns (result: int)
      requires Inv(View()) && Enabled(View(), Step.TryWrLock(t))
      modifies this
      ensures rw_magic == old(rw_magic) && Inv(View())
      ensures old(rw_magic) != RW_MAGIC ==> result == EINVAL && View() == old(View())
      ensures old(rw_magic) == RW_MAGIC ==>
                && View() == Apply(old(View()), Step.TryWrLock(t))
                && result == (if old(rw_refcount) == 0 then 0 else EBUSY)
                && (result == EBUSY ==> View() == old(View()))
                && (result == 0 ==>
                      && rw_refcount == -1
                      && rw_nwaitreaders == old(rw_nwaitreaders) && rw_nwaitwriters == old(rw_nwaitwriters)
                      && var th := old(threads[t]);
                         threads == old(threads)[t := Thread(Running, th.readLocks, th.writeLocks + 1)])
    {
      StepInv(View(), Step.TryWrLock(t));
      hide Inv;
      if rw_magic != RW_MAGIC { return EINVAL; }
      result := 0;
      if rw_refcount != 0 {
        result := EBUSY;
      } else {
        rw_refcount := -1;
        threads := threads[t := Thread(Running, threads[t].readLocks, threads[t].writeLocks + 1)];
      }
    }

    /** A holder's pthread_rwlock_unlock always returns 0, after releasing and waking. */
    method Unlock(ghost t: nat, ghost w: nat) returns (result: int)
      requires Inv(View()) && Enabled(View(), Step.Unlock(t, w))
      modifies this
      ensures rw_magic == old(rw_magic) && Inv(View())
      ensures old(rw_magic) != RW_MAGIC ==> result == EINVAL && View() == old(View())
      ensures old(rw_magic) == RW_MAGIC ==> result == 0 && View() == Apply(old(View()), Step.Unlock(t, w))
      ensures old(rw_magic) == RW_MAGIC ==>
                && rw_nwaitreaders == old(rw_nwaitreaders) && rw_nwaitwriters == old(rw_nwaitwriters)
                && (if old(threads[t].readLocks) > 0
                    then rw_refcount == old(rw_refcount) - 1
                         && threads[t] == old(threads[t]).(readLocks := old(threads[t].readLocks) - 1)
                    else rw_refcount == 0 && threads[t] == Thread(Running, 0, 0))
                && forall k: nat | k < |threads| && k != t :: threads[k] == AfterUnlock(old(threads), k, w,
                     rw_nwaitwriters > 0 && rw_refcount == 0, rw_nwaitwriters <= 0 && rw_nwaitreaders > 0)
    {
      StepInv(View(), Step.Unlock(t, w));
      HolderMayRelease(View(), t);
      hide Inv;
      if rw_magic != RW_MAGIC { return EINVAL; }
      result := 0;
      threads := threads[t := DropHold(rw_refcount, threads[t])];
      if rw_refcount > 0 {
        rw_refcount := rw_refcount - 1;
      } else if rw_refcount == -1 {
        rw_refcount := 0;
      } else {
        assert false;
      }
      if rw_nwaitwriters > 0 {
        if rw_refcount == 0 {
          threads := if w < |threads| && threads[w].phase == SleepW then SetPhase(threads, w, WokenW) else threads;
        }
      } else if rw_nwaitreaders > 0 {
        threads := Broadcast(threads);
      }
    }

    /** pthread_rwlock_destroy succeeds exactly on a lock that nobody holds or waits for. */
    method Destroy() returns (result: int)
      requires Inv(View())
      modifies this
      ensures View() == old(View())
      ensures result == 0 <==> old(rw_magic) == RW_MAGIC && forall t | 0 <= t < |threads| :: threads[t] == Thread(Running, 0, 0)
      ensures rw_magic == if result == 0 then 0 else old(rw_magic)
      ensures result in {0, EINVAL, EBUSY} && (result == EINVAL <==> old(rw_magic) != RW_MAGIC)
    {
      if rw_magic != RW_MAGIC { return EINVAL; }
      QuietState(View());
      if rw_refcount != 0 || rw_nwaitreaders != 0 || rw_nwaitwriters != 0 { return EBUSY; }
      rw_magic := 0;
      return 0;
    }
  }
}
