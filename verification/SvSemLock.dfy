/** svsem/locksvsem.c: a lock that is one System V semaphore, created and initialised by whichever
 *  process comes first.
 *
 *  Every semget, semctl and semop of my_lock() and my_unlock() is a step of its own; so is the
 *  death of a process, at any point.  The processes call my_lock() and my_unlock() in turn. */
module SvSemLock {
  import opened Sums

  const MAX_TRIES := 10

  /** Where a process stands.  Outside(init): in front of my_lock(), with its initflag; SetVal: has
   *  created the semaphore; Open: has found it created; Poll(i): in front of its i-th IPC_STAT;
   *  Down: in front of semop(-1); Critical: returned from it; TimedOut: my_lock() has returned
   *  without the lock, which its caller cannot tell. */
  datatype Pc = Outside(init: bool) | SetVal | Open | Poll(i: nat) | Down | Critical | TimedOut | Dead

  /** `otime`: sem_otime is not 0.  `sets`: how often SETVAL was done (history). */
  datatype State = State(created: bool, value: int, otime: bool, sets: nat, pcs: seq<Pc>)

  datatype Step = Go(t: nat) | Die(t: nat)

  predicate Enabled(s: State, step: Step) {
    && step.t < |s.pcs| && !s.pcs[step.t].Dead?
    && (step.Go? ==>
          match s.pcs[step.t]
          case Down => s.value >= 1
          case TimedOut => s.value == 0    // my_unlock() with its sembuf still 0 waits for 0
          case _ => true)
  }

  function Apply(s: State, step: Step): State
    requires Enabled(s, step)
  {
    var t := step.t;
    match step
    case Die(_) =>
      s.(value := if s.pcs[t].Critical? then s.value + 1 else s.value, pcs := s.pcs[t := Dead])   // SEM_UNDO
    case Go(_) =>
      match s.pcs[t]
      case Outside(init) =>
        if init then s.(pcs := s.pcs[t := Down])
        else if !s.created then s.(created := true, pcs := s.pcs[t := SetVal])
        else s.(pcs := s.pcs[t := Open])
      case SetVal => s.(value := 1, sets := s.sets + 1, pcs := s.pcs[t := Down])
      case Open => s.(pcs := s.pcs[t := Poll(0)])
      case Poll(i) =>
        s.(pcs := s.pcs[t := if s.otime then Down else if i + 1 < MAX_TRIES then Poll(i + 1) else TimedOut])
      case Down => s.(value := s.value - 1, otime := true, pcs := s.pcs[t := Critical])
      case Critical => s.(value := s.value + 1, otime := true, pcs := s.pcs[t := Outside(true)])
      case TimedOut => s.(otime := true, pcs := s.pcs[t := Outside(false)])
  }

  ghost predicate Legal(s: State, run: seq<Step>)
    decreases |run|
  {
    run == [] || (Enabled(s, run[0]) && Legal(Apply(s, run[0]), run[1..]))
  }

  ghost function Exec(s: State, run: seq<Step>): State
    requires Legal(s, run)
    decreases |run|
  {
    if run == [] then s else Exec(Apply(s, run[0]), run[1..])
  }

  /** All processes new.  The semaphore is not there, to be created with the value `value`; or an
   *  earlier process has created it, and has or has not (it died) done SETVAL and a semop. */
  ghost predicate Start(s: State) {
    && s.value >= 0
    && (forall t: nat | t < |s.pcs| :: s.pcs[t] == Outside(false))
    && s.sets <= (if s.created then 1 else 0)
    && (s.sets == 1 ==> s.value == 1)
    && (s.otime ==> s.created && (s.sets == 0 ==> s.value == 0))
  }

  // ----- invariant

  function Creating(pc: Pc): int { if pc.SetVal? then 1 else 0 }
  function Holding(pc: Pc): int { if pc.Critical? then 1 else 0 }

  predicate PastInit(pc: Pc) { pc.Down? || pc == Outside(true) }

  /** `value`: what the semaphore has before SETVAL.  Only a process that timed out can make
   *  sem_otime non-zero before SETVAL, and only if that value is 0, which still stops everybody. */
  ghost predicate Inv(value: int, s: State) {
    && value >= 0
    && Sum(s.pcs, Creating) + s.sets <= (if s.created then 1 else 0)
    && (if s.sets == 0
        then s.value == value && Sum(s.pcs, Holding) == 0 && (s.otime ==> value == 0)
        else s.value >= 0 && s.value + Sum(s.pcs, Holding) == 1)
    && (forall t: nat | t < |s.pcs| ::
          && (PastInit(s.pcs[t]) ==> s.sets == 1 || s.otime)
          && (s.pcs[t].Critical? ==> s.otime)
          && (s.pcs[t] == Outside(false) || s.pcs[t].Dead? || s.created))
    && (s.otime ==> s.created)
  }

  lemma StartInv(s: State)
    requires Start(s)
    ensures Inv(s.value, s)
  {
    SumConstant(s.pcs, Creating, 0);
    SumConstant(s.pcs, Holding, 0);
  }

  lemma StepInv(value: int, s: State, step: Step)
    requires Inv(value, s) && Enabled(s, step)
    ensures Inv(value, Apply(s, step))
  {
    hide Sum;
    var t := step.t;
    var r := Apply(s, step);
    SumUpdate(s.pcs, t, r.pcs[t], Creating);
    SumUpdate(s.pcs, t, r.pcs[t], Holding);
    SumNonNegative(s.pcs, Creating);
    SumNonNegative(s.pcs, Holding);
    SumNonNegative(r.pcs, Holding);
    SumAtLeast(s.pcs, t, Creating);
    SumAtLeast(s.pcs, t, Holding);
  }

  lemma {:induction false} RunInv(value: int, s: State, run: seq<Step>)
    requires Inv(value, s) && Legal(s, run)
    ensures Inv(value, Exec(s, run))
    decreases |run|
  {
    hide Inv, Enabled, Apply;
    if run != [] {
      StepInv(value, s, run[0]);
      RunInv(value, Apply(s, run[0]), run[1..]);
    }
  }

  /** For any number of processes and any interleaving, deaths and time-outs included: SETVAL is
   *  done at most once and before anybody takes the lock; from then on the semaphore's value and
   *  the number of processes that hold the lock add up to 1; and a process is kept waiting only
   *  while another one holds it. */
  lemma {:induction false} ValueAndHolder(s: State, run: seq<Step>)
    requires Start(s) && Legal(s, run)
    ensures var r := Exec(s, run);
            && r.sets <= 1
            && (r.sets == 0 ==> Sum(r.pcs, Holding) == 0)
            && (r.sets == 1 ==> 0 <= r.value && r.value + Sum(r.pcs, Holding) == 1)
            && (forall t: nat, u: nat | t < u < |r.pcs| :: !(r.pcs[t].Critical? && r.pcs[u].Critical?))
            && (r.sets == 1 ==>
                  forall t: nat | t < |r.pcs| && r.pcs[t].Down? && !Enabled(r, Go(t)) ::
                    exists u: nat :: u < |r.pcs| && r.pcs[u].Critical?)
  {
    hide Legal, Exec, Sum;
    StartInv(s);
    RunInv(s.value, s, run);
    var r := Exec(s, run);
    SumNonNegative(r.pcs, Creating);
    forall t: nat, u: nat | t < u < |r.pcs| ensures !(r.pcs[t].Critical? && r.pcs[u].Critical?) {
      SumNonNegative(r.pcs, Holding);
      SumAtLeastTwo(r.pcs, t, u, Holding);
    }
    if r.sets == 1 && r.value == 0 {
      var u := SumWitness(r.pcs, Holding);
    }
  }

  // ----- time-outs

  /** A process that has returned from my_lock() and not yet called my_unlock(). */
  predicate Inside(pc: Pc) { pc.Critical? || pc.TimedOut? }

  ghost predicate OneInside(s: State) {
    forall t: nat, u: nat | t < u < |s.pcs| :: !(Inside(s.pcs[t]) && Inside(s.pcs[u]))
  }

  ghost predicate AlwaysOneInside(s: State) {
    forall run | Legal(s, run) :: OneInside(Exec(s, run))
  }

  ghost predicate Ready(s: State) {
    s.otime && forall t: nat | t < |s.pcs| :: !s.pcs[t].TimedOut?
  }

  /** Once sem_otime is set nobody times out. */
  lemma {:induction false} ReadyStays(s: State, run: seq<Step>)
    requires Ready(s) && Legal(s, run)
    ensures Ready(Exec(s, run))
    decreases |run|
  {
    if run != [] { ReadyStays(Apply(s, run[0]), run[1..]); }
  }

  lemma {:induction false} SameProcesses(s: State, run: seq<Step>)
    requires Legal(s, run)
    ensures |Exec(s, run).pcs| == |s.pcs|
    decreases |run|
  {
    if run != [] { SameProcesses(Apply(s, run[0]), run[1..]); }
  }

  lemma {:induction false} RunAppend(s: State, a: seq<Step>, b: seq<Step>)
    requires Legal(s, a) && Legal(Exec(s, a), b)
    ensures Legal(s, a + b) && Exec(s, a + b) == Exec(Exec(s, a), b)
    decreases |a|
  {
    hide Enabled, Apply;
    if a == [] {
      assert a + b == b;
    } else {
      assert (a + b)[1..] == a[1..] + b;
      RunAppend(Apply(s, a[0]), a[1..], b);
    }
  }

  lemma {:induction false} OneStep(s: State, x: Step)
    requires Enabled(s, x)
    ensures Legal(s, [x]) && Exec(s, [x]) == Apply(s, x)
  {
    hide Enabled, Apply;
    var r, one := Apply(s, x), [x];
    assert one[1..] == [];
    assert Legal(r, []) && Exec(r, []) == r;
  }

  lemma {:induction false} Then(s: State, x: Step, rest: seq<Step>)
    requires Enabled(s, x) && Legal(Apply(s, x), rest)
    ensures Legal(s, [x] + rest) && Exec(s, [x] + rest) == Exec(Apply(s, x), rest)
  {
    hide Enabled, Apply;
    OneStep(s, x);
    RunAppend(s, [x], rest);
  }

  /** While nobody does a semop, a process polls to the end of its patience. */
  lemma {:induction false} PollsInVain(s: State, t: nat) returns (run: seq<Step>)
    requires t < |s.pcs| && s.pcs[t].Poll? && s.pcs[t].i < MAX_TRIES && !s.otime
    ensures Legal(s, run) && Exec(s, run) == s.(pcs := s.pcs[t := TimedOut])
    decreases MAX_TRIES - s.pcs[t].i
  {
    var r := Apply(s, Go(t));
    if r.pcs[t].TimedOut? {
      run := [Go(t)];
      OneStep(s, Go(t));
    } else {
      var rest := PollsInVain(r, t);
      run := [Go(t)] + rest;
      Then(s, Go(t), rest);
      assert r.pcs[t := TimedOut] == s.pcs[t := TimedOut];
    }
  }

  lemma TimesOut(s: State, t: nat) returns (run: seq<Step>)
    requires t < |s.pcs| && s.pcs[t] == Outside(false) && s.created && !s.otime
    ensures Legal(s, run) && Exec(s, run) == s.(pcs := s.pcs[t := TimedOut])
  {
    var a := Apply(s, Go(t));
    var b := Apply(a, Go(t));
    var rest := PollsInVain(b, t);
    Then(a, Go(t), rest);
    Then(s, Go(t), [Go(t)] + rest);
    run := [Go(t)] + ([Go(t)] + rest);
    assert b.pcs[t := TimedOut] == s.pcs[t := TimedOut];
  }

  /** Two processes inside: with a semaphore that nobody has used both time out; else the first
   *  creates it and sleeps until the second has timed out. */
  lemma TwoInside(s: State) returns (run: seq<Step>)
    requires Start(s) && !s.otime && |s.pcs| >= 2
    ensures Legal(s, run) && !OneInside(Exec(s, run))
  {
    if s.created {
      var first := TimesOut(s, 1);
      var second := TimesOut(Exec(s, first), 0);
      RunAppend(s, first, second);
      run := first + second;
    } else {
      var a := Apply(s, Go(0));
      var wait := TimesOut(a, 1);
      var b := Exec(a, wait);
      OneStep(Apply(b, Go(0)), Go(0));
      Then(b, Go(0), [Go(0)]);
      var last := [Go(0)] + [Go(0)];
      RunAppend(a, wait, last);
      Then(s, Go(0), wait + last);
      run := [Go(0)] + (wait + last);
    }
    assert Inside(Exec(s, run).pcs[0]) && Inside(Exec(s, run).pcs[1]);
  }

  /** my_lock() never lets two processes in at once exactly when some process has used the
   *  semaphore before, or there are fewer than two. */
  lemma ExclusiveIffInitialised(s: State)
    requires Start(s)
    ensures AlwaysOneInside(s) <==> s.otime || |s.pcs| < 2
  {
    if s.otime || |s.pcs| < 2 {
      forall run | Legal(s, run) ensures OneInside(Exec(s, run)) {
        SameProcesses(s, run);
        if s.otime {
          ReadyStays(s, run);
          ValueAndHolder(s, run);
        }
      }
    } else {
      var run := TwoInside(s);
      assert !OneInside(Exec(s, run));
    }
  }

  // ----- the program

  /** What holding the lock means for the semaphore and for the others. */
  lemma OnlyHolder(v: int, s: State, t: nat)
    requires Inv(v, s) && t < |s.pcs| && s.pcs[t].Critical?
    ensures s.value == 0 && s.sets == 1 && forall u: nat | u < |s.pcs| && u != t :: !s.pcs[u].Critical?
  {
    SumNonNegative(s.pcs, Creating);
    SumAtLeast(s.pcs, t, Holding);
    forall u: nat | u < |s.pcs| && u != t ensures !s.pcs[u].Critical? {
      if u < t { SumAtLeastTwo(s.pcs, u, t, Holding); } else { SumAtLeastTwo(s.pcs, t, u, Holding); }
    }
  }

  /** The semaphore in the kernel, and the processes. */
  class Program {
    var created: bool
    var value: int
    var otime: bool
    var sets: nat
    var pcs: seq<Pc>

    function View(): State
      reads this
    {
      State(created, value, otime, sets, pcs)
    }

    constructor (value: nat, n: nat)
      ensures View() == State(false, value, false, 0, seq(n, _ => Outside(false))) && Start(View())
    {
      created, this.value, otime, sets := false, value, false, 0;
      pcs := seq(n, _ => Outside(false));
    }

    /** The next step of my_lock() in process `t`.  Where it returns with the lock, the semaphore
     *  is down and nobody else has the lock; where it times out, nobody has used the semaphore. */
    method MyLock(ghost v: int, t: nat)
      requires Inv(v, View()) && Enabled(View(), Go(t)) && !Inside(pcs[t])
      modifies this
      ensures View() == Apply(old(View()), Go(t)) && Inv(v, View())
      ensures pcs[t].Critical? ==> value == 0 && forall u: nat | u < |pcs| && u != t :: !pcs[u].Critical?
      ensures pcs[t].TimedOut? ==> !otime && forall u: nat | u < |pcs| :: !pcs[u].Critical?
    {
      StepInv(v, View(), Go(t));
      match pcs[t] {
        case Outside(init) =>
          if init {
            pcs := pcs[t := Down];
          } else if created {
            pcs := pcs[t := Open];
          } else {
            created := true;
            pcs := pcs[t := SetVal];
          }
        case SetVal =>
          value, sets := 1, sets + 1;
          pcs := pcs[t := Down];
        case Open =>
          pcs := pcs[t := Poll(0)];
        case Poll(i) =>
          if otime {
            pcs := pcs[t := Down];
          } else if i + 1 < MAX_TRIES {
            pcs := pcs[t := Poll(i + 1)];
          } else {
            pcs := pcs[t := TimedOut];
          }
        case Down =>
          value, otime := value - 1, true;
          pcs := pcs[t := Critical];
      }
      if pcs[t].Critical? { OnlyHolder(v, View(), t); }
    }

    /** my_unlock() frees the semaphore after a lock that was got; after a time-out its operation
     *  waits for 0 and leaves the semaphore to its holder. */
    method MyUnlock(ghost v: int, t: nat)
      requires Inv(v, View()) && Enabled(View(), Go(t)) && Inside(pcs[t])
      modifies this
      ensures View() == Apply(old(View()), Go(t)) && Inv(v, View())
      ensures old(pcs[t]).Critical? ==> value == 1 && forall u: nat | u < |pcs| :: !pcs[u].Critical?
      ensures old(pcs[t]).TimedOut? ==> value == old(value) == 0
    {
      StepInv(v, View(), Go(t));
      if pcs[t].Critical? {
        OnlyHolder(v, View(), t);
        value := value + 1;
        pcs := pcs[t := Outside(true)];
      } else {
        pcs := pcs[t := Outside(false)];
      }
      otime := true;
    }

    /** The polling loop, undisturbed: it ends with its first look if sem_otime is set, else with
     *  its tenth in a time-out. */
    method Await(ghost v: int, t: nat) returns (looks: nat)
      requires Inv(v, View()) && t < |pcs| && pcs[t].Open?
      modifies this
      ensures Inv(v, View()) && View() == old(View()).(pcs := old(pcs)[t := if otime then Down else TimedOut])
      ensures looks == if otime then 1 else 10
    {
      hide Inv;
      ghost var before := View();
      MyLock(v, t);
      looks := 0;
      while pcs[t].Poll?
        invariant |pcs| == |before.pcs| && Inv(v, View())
        invariant View() == before.(pcs := before.pcs[t := pcs[t]])
        invariant if pcs[t].Poll? then looks == pcs[t].i < MAX_TRIES && (looks > 0 ==> !otime)
                  else pcs[t] == (if otime then Down else TimedOut) && looks == if otime then 1 else 10
        decreases if pcs[t].Poll? then MAX_TRIES - pcs[t].i else 0
      {
        MyLock(v, t);
        looks := looks + 1;
      }
    }

    /** my_lock() in process `t` without another process in between: a creator gets the lock; a
     *  process that finds the semaphore created but never used times out after ten looks; any
     *  other gets the lock if it is free and else waits for it. */
    method LockAlone(ghost v: int, t: nat) returns (locked: bool)
      requires Inv(v, View()) && t < |pcs| && pcs[t].Outside?
      modifies this
      ensures pcs == old(pcs)[t := if !old(pcs[t]).init && old(created) && !old(otime) then TimedOut
                                   else if !old(created) || old(value) >= 1 then Critical else Down]
      ensures Inv(v, View()) && locked == pcs[t].Critical?
      ensures value == if locked then 0 else old(value)
    {
      assert pcs[t].init ==> created;
      hide Inv;
      MyLock(v, t);
      if pcs[t].Open? {
        var looks := Await(v, t);
      } else if pcs[t].SetVal? {
        MyLock(v, t);
      }
      if pcs[t].Down? && value >= 1 { MyLock(v, t); }
      locked := pcs[t].Critical?;
    }

    /** my_lock() and my_unlock() without another process in between leave a free lock free. */
    method Round(ghost v: int, t: nat)
      requires Inv(v, View()) && t < |pcs| && pcs[t].Outside?
      requires !created || ((otime || pcs[t].init) && value >= 1)
      modifies this
      ensures Inv(v, View()) && value == 1 && sets == 1 && otime
      ensures pcs == old(pcs)[t := Outside(true)]
    {
      var locked := LockAlone(v, t);
      assert pcs[t].Critical?;
      OnlyHolder(v, View(), t);
      MyUnlock(v, t);
    }
  }
}
