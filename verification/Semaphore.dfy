/** The semaphore of pxsem/my_pxsem_mmap: a counter under a mutex, and a condition variable that
 *  sem_post signals only when it finds the counter at zero.
 *
 *  A step is one stretch of code under the mutex; spurious wake-ups may happen. */
module Semaphore {
  import opened Sums

  datatype Phase = Running | Sleeping | Woken

  /** `held`: how many successful waits of the thread have no post of its own yet. */
  datatype Thread = Thread(phase: Phase, held: nat)

  /** `holdersOnly`: a thread posts only what it has taken, as when the semaphore is a lock. */
  datatype Config = Config(threads: nat, initial: nat, holdersOnly: bool)

  datatype State = State(count: int, threads: seq<Thread>, posts: nat, waits: nat)

  datatype Step =
    | Wait(t: nat) | Resume(t: nat) | TryWait(t: nat)
    | Post(t: nat, w: nat)  // w: the sleeper that pthread_cond_signal picks, if it wakes one
    | SpuriousWake(t: nat)

  ghost function Init(c: Config): State {
    State(c.initial, seq(c.threads, _ => Thread(Running, 0)), 0, 0)
  }

  ghost predicate Some(s: State, phase: Phase) {
    exists t: nat :: t < |s.threads| && s.threads[t].phase == phase
  }

  ghost predicate Enabled(c: Config, s: State, step: Step) {
    && step.t < |s.threads|
    && match step
       case Wait(t) => s.threads[t].phase == Running
       case Resume(t) => s.threads[t].phase == Woken
       case TryWait(t) => s.threads[t].phase == Running
       case Post(t, w) =>
         && s.threads[t].phase == Running && (c.holdersOnly ==> s.threads[t].held > 0)
         && (Some(s, Sleeping) ==> w < |s.threads| && s.threads[w].phase == Sleeping)
       case SpuriousWake(t) => s.threads[t].phase == Sleeping
  }

  function SetPhase(threads: seq<Thread>, t: nat, phase: Phase): seq<Thread>
    requires t < |threads|
  {
    threads[t := threads[t].(phase := phase)]
  }

  /** The wait loop: one evaluation of its condition and what follows. */
  function Enter(s: State, t: nat): State
    requires t < |s.threads|
  {
    if s.count == 0 then s.(threads := SetPhase(s.threads, t, Sleeping)) else Down(s, t)
  }

  function Down(s: State, t: nat): State
    requires t < |s.threads|
  {
    s.(count := s.count - 1, waits := s.waits + 1, threads := s.threads[t := Thread(Running, s.threads[t].held + 1)])
  }

  function Signalled(threads: seq<Thread>, signal: bool, w: nat): seq<Thread> {
    if signal && w < |threads| && threads[w].phase == Sleeping then SetPhase(threads, w, Woken) else threads
  }

  /** A post by a thread that holds nothing gives what nobody took. */
  function GiveBack(th: Thread): Thread {
    th.(held := if th.held > 0 then th.held - 1 else 0)
  }

  function Up(s: State, t: nat, w: nat): State
    requires t < |s.threads|
  {
    State(s.count + 1, Signalled(s.threads[t := GiveBack(s.threads[t])], s.count == 0, w), s.posts + 1, s.waits)
  }

  ghost function Apply(c: Config, s: State, step: Step): State
    requires Enabled(c, s, step)
  {
    match step
    case Wait(t) => Enter(s, t)
    case Resume(t) => Enter(s, t)
    case TryWait(t) => if s.count > 0 then Down(s, t) else s
    case Post(t, w) => Up(s, t, w)
    case SpuriousWake(t) => s.(threads := SetPhase(s.threads, t, Woken))
  }

  ghost predicate Legal(c: Config, s: State, steps: seq<Step>)
    decreases |steps|
  {
    steps == [] || (Enabled(c, s, steps[0]) && Legal(c, Apply(c, s, steps[0]), steps[1..]))
  }

  ghost function Exec(c: Config, s: State, steps: seq<Step>): State
    requires Legal(c, s, steps)
    decreases |steps|
  {
    if steps == [] then s else Exec(c, Apply(c, s, steps[0]), steps[1..])
  }

  ghost predicate Reachable(c: Config, s: State) {
    exists steps :: Legal(c, Init(c), steps) && s == Exec(c, Init(c), steps)
  }

  lemma {:induction false} OneMore(c: Config, s: State, steps: seq<Step>, step: Step)
    requires Legal(c, s, steps) && Enabled(c, Exec(c, s, steps), step)
    ensures Legal(c, s, steps + [step])
    ensures Exec(c, s, steps + [step]) == Apply(c, Exec(c, s, steps), step)
    decreases |steps|
  {
    if steps == [] {
      assert Legal(c, Apply(c, s, step), [step][1..]);
    } else {
      assert (steps + [step])[1..] == steps[1..] + [step];
      OneMore(c, Apply(c, s, steps[0]), steps[1..], step);
    }
  }

  // ----- counting

  function Held(th: Thread): int { th.held }

  /** The two conditions under which no wake-up is lost. */
  ghost predicate SafeUse(c: Config) {
    c.threads <= 2 || (c.holdersOnly && c.initial <= 1)
  }

  /** The counter is the initial value plus posts minus successful waits and never negative; if
   *  only holders post, the counter and the tokens held add up to the initial value. */
  ghost predicate Counted(c: Config, s: State) {
    && |s.threads| == c.threads
    && 0 <= s.count == c.initial + s.posts - s.waits
    && (c.holdersOnly ==> s.count + Sum(s.threads, Held) == c.initial)
  }

  /** With at most two threads a sleeper sees zero; with a lock a woken thread is on its way. */
  ghost predicate NoneForgotten(c: Config, s: State) {
    && (c.threads <= 2 ==> (Some(s, Sleeping) ==> s.count == 0))
    && (c.holdersOnly && c.initial <= 1 ==> (Some(s, Sleeping) && s.count > 0 ==> Some(s, Woken)))
  }

  ghost predicate Inv(c: Config, s: State) { Counted(c, s) && NoneForgotten(c, s) }

  lemma CountedStep(c: Config, s: State, step: Step)
    requires Counted(c, s) && Enabled(c, s, step)
    ensures Counted(c, Apply(c, s, step))
  {
    var t := step.t;
    SumUpdate(s.threads, t, Thread(Running, s.threads[t].held + 1), Held);
    SumUpdate(s.threads, t, s.threads[t].(phase := Sleeping), Held);
    SumUpdate(s.threads, t, s.threads[t].(phase := Woken), Held);
    if step.Post? {
      var given := s.threads[t := GiveBack(s.threads[t])];
      SumUpdate(s.threads, t, GiveBack(s.threads[t]), Held);
      if step.w < |given| { SumUpdate(given, step.w, given[step.w].(phase := Woken), Held); }
    }
  }

  /** A thread's phase after a step is its phase before, unless the step names the thread. */
  lemma OthersKeepPhase(c: Config, s: State, step: Step, k: nat)
    requires Enabled(c, s, step) && k < |s.threads|
    ensures var r := Apply(c, s, step);
            && |r.threads| == |s.threads|
            && (k != step.t && (step.Post? ==> k != step.w) ==> r.threads[k].phase == s.threads[k].phase)
            && (step.Post? && k == step.w && s.threads[k].phase == Sleeping ==>
                  r.threads[k].phase == if s.count == 0 then Woken else Sleeping)
  {
  }

  lemma NoneForgottenStep(c: Config, s: State, step: Step)
    requires Inv(c, s) && Enabled(c, s, step)
    ensures NoneForgotten(c, Apply(c, s, step))
  {
    var r := Apply(c, s, step);
    CountedStep(c, s, step);
    SumNonNegative(s.threads, Held);
    if Some(r, Sleeping) {
      var k: nat :| k < |r.threads| && r.threads[k].phase == Sleeping;
      OthersKeepPhase(c, s, step, k);
      if step.Post? {
        assert s.threads[k].phase == Sleeping;
        OthersKeepPhase(c, s, step, step.w);
        SumAtLeast(s.threads, step.t, Held);
        assert c.holdersOnly && c.initial <= 1 ==> r.threads[step.w].phase == Woken;
      } else if k != step.t && r.count > 0 {
        if Some(s, Woken) {
          var j: nat :| j < |s.threads| && s.threads[j].phase == Woken;
          OthersKeepPhase(c, s, step, j);
          SumNonNegative(r.threads, Held);
          assert j != step.t ==> r.threads[j].phase == Woken;
          if step.Resume? { TakenLast(c, s, step.t); }
        }
      }
    }
  }

  /** A lock's only token: after a thread took it the counter is zero. */
  lemma TakenLast(c: Config, s: State, t: nat)
    requires Counted(c, s) && t < |s.threads|
    ensures c.holdersOnly && c.initial <= 1 ==> s.count <= 1
  {
    SumNonNegative(s.threads, Held);
  }

  lemma StepInv(c: Config, s: State, step: Step)
    requires Inv(c, s) && Enabled(c, s, step)
    ensures Inv(c, Apply(c, s, step))
  {
    CountedStep(c, s, step);
    NoneForgottenStep(c, s, step);
  }

  lemma InitInv(c: Config)
    ensures Inv(c, Init(c))
  {
    SumConstant(Init(c).threads, Held, 0);
  }

  lemma {:induction false} RunInv(c: Config, s: State, steps: seq<Step>)
    requires Inv(c, s) && Legal(c, s, steps)
    ensures Inv(c, Exec(c, s, steps))
    decreases |steps|
  {
    if steps != [] {
      StepInv(c, s, steps[0]);
      RunInv(c, Apply(c, s, steps[0]), steps[1..]);
    }
  }

  /** In every reachable state, for any number of threads, the counter is the initial value plus
   *  posts minus successful waits and not negative; started at 1 and posted only by holders it is
   *  a lock: it and the tokens held add up to 1, and no two threads hold one. */
  lemma CountAndExclusion(c: Config, s: State)
    requires Reachable(c, s)
    ensures 0 <= s.count == c.initial + s.posts - s.waits
    ensures c.holdersOnly ==> s.count + Sum(s.threads, Held) == c.initial
    ensures c.holdersOnly && c.initial == 1 ==>
              forall i: nat, j: nat | i < j < |s.threads| :: s.threads[i].held + s.threads[j].held <= 1
  {
    var steps :| Legal(c, Init(c), steps) && s == Exec(c, Init(c), steps);
    InitInv(c);
    RunInv(c, Init(c), steps);
    forall i: nat, j: nat | i < j < |s.threads|
      ensures s.threads[i].held + s.threads[j].held <= Sum(s.threads, Held)
    {
      SumAtLeastTwo(s.threads, i, j, Held);
    }
  }

  // ----- lost wake-ups

  /** The counter is positive, a thread sleeps, and no woken thread is on its way. */
  ghost predicate Stranded(s: State) {
    s.count > 0 && Some(s, Sleeping) && !Some(s, Woken)
  }

  ghost predicate NeverStrands(c: Config) {
    forall s | Reachable(c, s) :: !Stranded(s)
  }

  lemma Extend(c: Config, s: State, step: Step) returns (r: State)
    requires Reachable(c, s) && Enabled(c, s, step)
    ensures r == Apply(c, s, step) && Reachable(c, r)
  {
    var steps :| Legal(c, Init(c), steps) && s == Exec(c, Init(c), steps);
    OneMore(c, Init(c), steps, step);
    r := Apply(c, s, step);
  }

  /** Thread 0 takes every token there is. */
  lemma {:induction false} TakeAll(c: Config, k: nat) returns (s: State)
    requires c.threads > 0 && k <= c.initial
    ensures Reachable(c, s) && s.count == c.initial - k
    ensures s.threads == Init(c).threads[0 := Thread(Running, k)]
  {
    if k == 0 {
      assert Legal(c, Init(c), []);
      s := Init(c);
    } else {
      s := TakeAll(c, k - 1);
      s := Extend(c, s, Wait(0));
    }
  }

  /** Two sleepers, two posts in a row, one signal. */
  lemma TwoPostsOneSignal(c: Config) returns (s: State)
    requires !SafeUse(c)
    ensures Reachable(c, s) && Stranded(s)
  {
    s := TakeAll(c, c.initial);
    s := Extend(c, s, Wait(1));
    s := Extend(c, s, Wait(2));
    assert s.threads[1].phase == Sleeping && s.threads[2].phase == Sleeping;
    s := Extend(c, s, Post(0, 1));
    assert s.threads[1].phase == Woken && s.threads[2].phase == Sleeping && s.count == 1;
    s := Extend(c, s, Post(0, 2));
    assert s.threads[1].phase == Woken && s.threads[2].phase == Sleeping && s.count == 2;
    s := Extend(c, s, Resume(1));
    assert s.threads[2].phase == Sleeping && s.threads[1].phase == Running;
    assert forall k: nat | 2 < k < |s.threads| :: s.threads[k].phase == Running;
  }

  /** The exact condition under which no interleaving loses a wake-up. */
  lemma NeverStrandsIffSafeUse(c: Config)
    ensures NeverStrands(c) <==> SafeUse(c)
  {
    if SafeUse(c) {
      forall s | Reachable(c, s) ensures !Stranded(s) {
        var steps :| Legal(c, Init(c), steps) && s == Exec(c, Init(c), steps);
        InitInv(c);
        RunInv(c, Init(c), steps);
      }
    } else {
      var s := TwoPostsOneSignal(c);
      assert Reachable(c, s) && Stranded(s);
    }
  }

  // ----- the semaphore as the source writes it

  const SEM_MAGIC := 0x67458923
  const EINVAL := 22
  const EAGAIN := 11

  datatype Outcome = Returned(errno: int) | Waits

  /** sem_t.  `threads`, `posts` and `waits` are what the condition variable and the callers
   *  know. */
  class Sem {
    var sem_count: nat
    var sem_magic: int
    ghost const c: Config
    ghost var threads: seq<Thread>
    ghost var posts: nat
    ghost var waits: nat

    ghost function View(): State
      reads this
    {
      State(sem_count, threads, posts, waits)
    }

    constructor (ghost c: Config, value: nat)
      requires c.initial == value
      ensures this.c == c && sem_magic == SEM_MAGIC && View() == Init(c)
    {
      this.c := c;
      sem_count, sem_magic := value, SEM_MAGIC;
      threads, posts, waits := Init(c).threads, 0, 0;
    }

    /** sem_wait from taking the mutex on, or (`woken`) from the return of pthread_cond_wait on. */
    method Wait(ghost t: nat, woken: bool) returns (r: Outcome)
      requires Enabled(c, View(), if woken then Step.Resume(t) else Step.Wait(t))
      modifies this
      ensures sem_magic == old(sem_magic)
      ensures sem_magic != SEM_MAGIC && !woken ==> r == Returned(EINVAL) && View() == old(View())
      ensures sem_magic == SEM_MAGIC || woken ==>
                && View() == Apply(c, old(View()), if woken then Step.Resume(t) else Step.Wait(t))
                && r == if old(sem_count) == 0 then Waits else Returned(0)
      ensures sem_magic == SEM_MAGIC || woken ==>
                if r == Waits
                then sem_count == 0 && waits == old(waits) && posts == old(posts)
                     && threads == old(threads)[t := Thread(Sleeping, old(threads[t].held))]
                else sem_count == old(sem_count) - 1 && waits == old(waits) + 1 && posts == old(posts)
                     && threads == old(threads)[t := Thread(Running, old(threads[t].held) + 1)]
    {
      if !woken && sem_magic != SEM_MAGIC { return Returned(EINVAL); }
      if sem_count == 0 {
        threads := SetPhase(threads, t, Sleeping);
        return Waits;
      }
      sem_count := sem_count - 1;
      waits := waits + 1;
      threads := threads[t := Thread(Running, threads[t].held + 1)];
      return Returned(0);
    }

    method TryWait(ghost t: nat) returns (errno: int)
      requires Enabled(c, View(), Step.TryWait(t))
      modifies this
      ensures sem_magic == old(sem_magic)
      ensures sem_magic != SEM_MAGIC ==> errno == EINVAL && View() == old(View())
      ensures sem_magic == SEM_MAGIC ==>
                && View() == Apply(c, old(View()), Step.TryWait(t))
                && errno == if old(sem_count) > 0 then 0 else EAGAIN
      ensures sem_magic == SEM_MAGIC ==>
                if errno == 0
                then sem_count == old(sem_count) - 1 && waits == old(waits) + 1 && posts == old(posts)
                     && threads == old(threads)[t := Thread(Running, old(threads[t].held) + 1)]
                else View() == old(View())
    {
      if sem_magic != SEM_MAGIC { return EINVAL; }
      if sem_count > 0 {
        sem_count := sem_count - 1;
        waits := waits + 1;
        threads := threads[t := Thread(Running, threads[t].held + 1)];
        errno := 0;
      } else {
        errno := EAGAIN;
      }
    }

    method Post(ghost t: nat, ghost w: nat) returns (errno: int)
      requires Enabled(c, View(), Step.Post(t, w))
      modifies this
      ensures sem_magic == old(sem_magic)
      ensures sem_magic != SEM_MAGIC ==> errno == EINVAL && View() == old(View())
      ensures sem_magic == SEM_MAGIC ==> errno == 0 && View() == Apply(c, old(View()), Step.Post(t, w))
      ensures sem_magic == SEM_MAGIC ==>
                && sem_count == old(sem_count) + 1 && posts == old(posts) + 1 && waits == old(waits)
                && |threads| == |old(threads)|
                && threads[t] == Thread(Running, if old(threads[t].held) > 0 then old(threads[t].held) - 1 else 0)
                && forall k: nat | k < |threads| && k != t ::
                     && threads[k].held == old(threads)[k].held
                     && (threads[k].phase == if old(sem_count) == 0 && k == w && old(threads)[k].phase == Sleeping
                                             then Woken else old(threads)[k].phase)
    {
      if sem_magic != SEM_MAGIC { return EINVAL; }
      threads := threads[t := GiveBack(threads[t])];
      if sem_count == 0 {
        threads := Signalled(threads, true, w);
      }
      sem_count := sem_count + 1;
      posts := posts + 1;
      errno := 0;
    }
  }
}
