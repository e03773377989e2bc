/** pxsem/prodcons4.c: any number of producers and consumers on a ring of ten integers, with
 *  three semaphores and a shutdown token that the finished threads pass on.
 *
 *  Every sem_wait and sem_post is a step of its own; so is the critical region between two of
 *  them, which only the holder of `mutex` runs. */
module ProdCons4 {
  import opened Sums

  const NBUFF := 10

  /** Where a thread is.  The producer's steps come first, then the consumer's. */
  datatype Pc =
    | PWaitEmpty | PWaitMutex | PCritical | PPostMutex | PPostStored
    | PExitStored | PExitEmpty | PExitMutex | PDone
    | CWaitStored | CWaitMutex | CCritical | CPostMutex | CPostEmpty
    | CExitStored | CExitMutex | CDone
  {
    predicate Producer() {
      PWaitEmpty? || PWaitMutex? || PCritical? || PPostMutex? || PPostStored? ||
      PExitStored? || PExitEmpty? || PExitMutex? || PDone?
    }
    predicate Done() { PDone? || CDone? }
    /** The thread has seen that all items are put (a producer) or got (a consumer). */
    predicate Leaving() {
      PExitStored? || PExitEmpty? || PExitMutex? || PDone? || CExitStored? || CExitMutex? || CDone?
    }
  }

  /** `count`: what the thread adds up for its creator. */
  datatype Thread = Thread(pc: Pc, count: nat)

  datatype Config = Config(nitems: int, producers: nat, consumers: nat) {
    function Items(): nat { if nitems < 0 then 0 else nitems }
  }

  /** `printed`: the values that consumers have taken from the ring and printed. */
  datatype State = State(buff: seq<int>, nput: int, nputval: int, nget: int, ngetval: int,
                         mutex: int, nempty: int, nstored: int,
                         threads: seq<Thread>, printed: seq<int>)

  ghost function Init(c: Config): State {
    State(seq(NBUFF, _ => 0), 0, 0, 0, 0, 1, NBUFF, 0,
          seq(c.producers + c.consumers, i => Thread(if i < c.producers then PWaitEmpty else CWaitStored, 0)), [])
  }

  predicate Enabled(s: State, t: nat) {
    && t < |s.threads|
    && match s.threads[t].pc
       case PWaitEmpty => s.nempty > 0
       case PWaitMutex => s.mutex > 0
       case CWaitStored => s.nstored > 0
       case CWaitMutex => s.mutex > 0
       case PDone => false
       case CDone => false
       case _ => true
  }

  function Goto(s: State, t: nat, pc: Pc): State
    requires t < |s.threads|
  {
    s.(threads := s.threads[t := s.threads[t].(pc := pc)])
  }

  /** Back to the head of the loop, with one more item counted. */
  function GotoCounted(s: State, t: nat, pc: Pc): State
    requires t < |s.threads|
  {
    s.(threads := s.threads[t := Thread(pc, s.threads[t].count + 1)])
  }

  function PutItem(s: State): State
    requires |s.buff| == NBUFF
  {
    s.(buff := s.buff[s.nput % NBUFF := s.nputval], nput := s.nput + 1, nputval := s.nputval + 1)
  }

  function GetItem(s: State): State
    requires |s.buff| == NBUFF
  {
    s.(printed := s.printed + [s.buff[s.nget % NBUFF]], nget := s.nget + 1, ngetval := s.ngetval + 1)
  }

  /** One step of thread `t`. */
  function Apply(c: Config, s: State, t: nat): State
    requires Enabled(s, t) && |s.buff| == NBUFF
  {
    match s.threads[t].pc
    case PWaitEmpty => Goto(s.(nempty := s.nempty - 1), t, PWaitMutex)
    case PWaitMutex => Goto(s.(mutex := s.mutex - 1), t, PCritical)
    case PCritical => if s.nput >= c.nitems then Goto(s, t, PExitStored) else Goto(PutItem(s), t, PPostMutex)
    case PPostMutex => Goto(s.(mutex := s.mutex + 1), t, PPostStored)
    case PPostStored => GotoCounted(s.(nstored := s.nstored + 1), t, PWaitEmpty)
    case PExitStored => Goto(s.(nstored := s.nstored + 1), t, PExitEmpty)
    case PExitEmpty => Goto(s.(nempty := s.nempty + 1), t, PExitMutex)
    case PExitMutex => Goto(s.(mutex := s.mutex + 1), t, PDone)
    case CWaitStored => Goto(s.(nstored := s.nstored - 1), t, CWaitMutex)
    case CWaitMutex => Goto(s.(mutex := s.mutex - 1), t, CCritical)
    case CCritical => if s.nget >= c.nitems then Goto(s, t, CExitStored) else Goto(GetItem(s), t, CPostMutex)
    case CPostMutex => Goto(s.(mutex := s.mutex + 1), t, CPostEmpty)
    case CPostEmpty => GotoCounted(s.(nempty := s.nempty + 1), t, CWaitStored)
    case CExitStored => Goto(s.(nstored := s.nstored + 1), t, CExitMutex)
    case CExitMutex => Goto(s.(mutex := s.mutex + 1), t, CDone)
  }

  ghost predicate Legal(c: Config, s: State, run: seq<nat>)
    decreases |run|
  {
    run == [] || (Enabled(s, run[0]) && |s.buff| == NBUFF && Legal(c, Apply(c, s, run[0]), run[1..]))
  }

  ghost function Exec(c: Config, s: State, run: seq<nat>): State
    requires Legal(c, s, run)
    decreases |run|
  {
    if run == [] then s else Exec(c, Apply(c, s, run[0]), run[1..])
  }

  // ----- tokens

  function B(b: bool): int { if b then 1 else 0 }

  function InMutex(th: Thread): int {
    B(th.pc in {PCritical, PPostMutex, PExitStored, PExitEmpty, PExitMutex, CCritical, CPostMutex, CExitStored, CExitMutex})
  }
  /** Holds a token taken from nempty, or one owed to it. */
  function EmptyInHand(th: Thread): int {
    B(th.pc in {PWaitMutex, PCritical, PExitStored, PExitEmpty, CPostMutex, CPostEmpty})
  }
  function StoredInHand(th: Thread): int {
    B(th.pc in {PPostMutex, PPostStored, CWaitMutex, CCritical, CExitStored})
  }
  /** Has posted nstored to let consumers terminate. */
  function ShutdownPosts(th: Thread): int { B(th.pc in {PExitEmpty, PExitMutex, PDone}) }
  /** Items put, or got, by a thread, counted or about to be. */
  function Produced(th: Thread): int {
    if th.pc.Producer() then th.count + B(th.pc in {PPostMutex, PPostStored}) else 0
  }
  function Consumed(th: Thread): int {
    if th.pc.Producer() then 0 else th.count + B(th.pc in {CPostMutex, CPostEmpty})
  }

  ghost predicate Tokens(s: State) {
    && s.mutex >= 0 && s.nempty >= 0 && s.nstored >= 0
    && s.mutex + Sum(s.threads, InMutex) == 1
    && s.nempty + Sum(s.threads, EmptyInHand) == NBUFF - (s.nput - s.nget)
    && s.nstored + Sum(s.threads, StoredInHand) == s.nput - s.nget + Sum(s.threads, ShutdownPosts)
    && s.nput == Sum(s.threads, Produced)
    && s.nget == Sum(s.threads, Consumed)
  }

  ghost predicate Ring(c: Config, s: State) {
    && |s.buff| == NBUFF
    && 0 <= s.nget <= s.nput <= c.Items()
    && s.nputval == s.nput && s.ngetval == s.nget
    && (forall k | s.nget <= k < s.nput :: s.buff[k % NBUFF] == k)
    && |s.printed| == s.nget && (forall i | 0 <= i < s.nget :: s.printed[i] == i)
  }

  ghost predicate Roles(c: Config, s: State) {
    && |s.threads| == c.producers + c.consumers
    && forall t: nat | t < |s.threads| ::
         && (s.threads[t].pc.Producer() <==> t < c.producers)
         && (s.threads[t].pc.Leaving() ==> if t < c.producers then s.nput >= c.nitems else s.nget >= c.nitems)
  }

  ghost predicate Inv(c: Config, s: State) { Tokens(s) && Ring(c, s) && Roles(c, s) }

  /** How one thread's step changes each sum. */
  lemma Recount(threads: seq<Thread>, t: nat, th: Thread)
    requires t < |threads|
    ensures var u := threads[t := th];
            && Sum(u, InMutex) == Sum(threads, InMutex) - InMutex(threads[t]) + InMutex(th)
            && Sum(u, EmptyInHand) == Sum(threads, EmptyInHand) - EmptyInHand(threads[t]) + EmptyInHand(th)
            && Sum(u, StoredInHand) == Sum(threads, StoredInHand) - StoredInHand(threads[t]) + StoredInHand(th)
            && Sum(u, ShutdownPosts) == Sum(threads, ShutdownPosts) - ShutdownPosts(threads[t]) + ShutdownPosts(th)
            && Sum(u, Produced) == Sum(threads, Produced) - Produced(threads[t]) + Produced(th)
            && Sum(u, Consumed) == Sum(threads, Consumed) - Consumed(threads[t]) + Consumed(th)
  {
    SumUpdate(threads, t, th, InMutex);
    SumUpdate(threads, t, th, EmptyInHand);
    SumUpdate(threads, t, th, StoredInHand);
    SumUpdate(threads, t, th, ShutdownPosts);
    SumUpdate(threads, t, th, Produced);
    SumUpdate(threads, t, th, Consumed);
  }

  lemma TokensStep(c: Config, s: State, t: nat)
    requires Inv(c, s) && Enabled(s, t)
    ensures Tokens(Apply(c, s, t))
  {
    hide Sum;
    Recount(s.threads, t, Apply(c, s, t).threads[t]);
  }

  /** A producer about to put finds a free place. */
  lemma RoomToPut(c: Config, s: State, t: nat)
    requires Inv(c, s) && t < |s.threads| && EmptyInHand(s.threads[t]) == 1
    ensures s.nput - s.nget < NBUFF
  {
    SumAtLeast(s.threads, t, EmptyInHand);
  }

  /** A consumer about to get finds an item, even if its token was a shutdown token. */
  lemma ItemToGet(c: Config, s: State, t: nat)
    requires Inv(c, s) && t < |s.threads| && StoredInHand(s.threads[t]) == 1 && s.nget < c.nitems
    ensures s.nget < s.nput
  {
    SumAtLeast(s.threads, t, StoredInHand);
    if Sum(s.threads, ShutdownPosts) > 0 {
      var p := SumWitness(s.threads, ShutdownPosts);
      assert s.threads[p].pc.Leaving();
    }
  }

  lemma RingStep(c: Config, s: State, t: nat)
    requires Inv(c, s) && Enabled(s, t)
    ensures Ring(c, Apply(c, s, t))
  {
    if s.threads[t].pc == PCritical && s.nput < c.nitems {
      RoomToPut(c, s, t);
      forall k | s.nget <= k < s.nput ensures k % NBUFF != s.nput % NBUFF { Distinct(k, s.nput); }
    }
    if s.threads[t].pc == CCritical && s.nget < c.nitems { ItemToGet(c, s, t); }
  }

  lemma Distinct(a: int, b: int)
    requires a < b < a + NBUFF
    ensures a % NBUFF != b % NBUFF
  {
  }

  lemma RolesStep(c: Config, s: State, t: nat)
    requires Inv(c, s) && Enabled(s, t)
    ensures Roles(c, Apply(c, s, t))
  {
    var r := Apply(c, s, t);
    assert r.nput >= s.nput && r.nget >= s.nget;
    forall k: nat | k < |r.threads|
      ensures r.threads[k].pc.Producer() <==> k < c.producers
      ensures r.threads[k].pc.Leaving() ==> if k < c.producers then r.nput >= c.nitems else r.nget >= c.nitems
    {
      assert s.threads[k].pc.Producer() <==> k < c.producers;
    }
  }

  lemma StepInv(c: Config, s: State, t: nat)
    requires Inv(c, s) && Enabled(s, t)
    ensures Inv(c, Apply(c, s, t))
  {
    TokensStep(c, s, t);
    RingStep(c, s, t);
    RolesStep(c, s, t);
  }

  lemma InitInv(c: Config)
    ensures Inv(c, Init(c))
  {
    var ts := Init(c).threads;
    SumConstant(ts, InMutex, 0);
    SumConstant(ts, EmptyInHand, 0);
    SumConstant(ts, StoredInHand, 0);
    SumConstant(ts, ShutdownPosts, 0);
    SumConstant(ts, Produced, 0);
    SumConstant(ts, Consumed, 0);
  }

  lemma {:induction false} RunInv(c: Config, s: State, run: seq<nat>)
    requires Inv(c, s) && Legal(c, s, run)
    ensures Inv(c, Exec(c, s, run))
    decreases |run|
  {
    if run != [] {
      StepInv(c, s, run[0]);
      RunInv(c, Apply(c, s, run[0]), run[1..]);
    }
  }

  // ----- every run is finite

  function Rank(th: Thread): int {
    match th.pc
    case PPostMutex => 8 case PPostStored => 7
    case PWaitEmpty => 6 case PWaitMutex => 5 case PCritical => 4
    case PExitStored => 3 case PExitEmpty => 2 case PExitMutex => 1 case PDone => 0
    case CPostMutex => 7 case CPostEmpty => 6
    case CWaitStored => 5 case CWaitMutex => 4 case CCritical => 3
    case CExitStored => 2 case CExitMutex => 1 case CDone => 0
  }

  /** The steps that can still follow. */
  ghost function Remaining(c: Config, s: State): int {
    5 * (c.Items() - s.nput) + 5 * (c.Items() - s.nget) + Sum(s.threads, Rank)
  }

  lemma RemainingDecreases(c: Config, s: State, t: nat)
    requires Inv(c, s) && Enabled(s, t)
    ensures 0 <= Remaining(c, Apply(c, s, t)) < Remaining(c, s)
  {
    hide Sum, Tokens;
    var r := Apply(c, s, t);
    StepInv(c, s, t);
    SumUpdate(s.threads, t, r.threads[t], Rank);
    SumNonNegative(r.threads, Rank);
  }

  lemma {:induction false} RunBounded(c: Config, s: State, run: seq<nat>)
    requires Inv(c, s) && Legal(c, s, run) && Remaining(c, s) >= 0
    ensures |run| <= Remaining(c, s)
    decreases |run|
  {
    if run != [] {
      StepInv(c, s, run[0]);
      RemainingDecreases(c, s, run[0]);
      RunBounded(c, Apply(c, s, run[0]), run[1..]);
    }
  }

  // ----- and ends with everything done

  ghost predicate Stuck(s: State) {
    forall t: nat | t < |s.threads| :: !Enabled(s, t)
  }

  ghost predicate AllDone(s: State) {
    forall t: nat | t < |s.threads| :: s.threads[t].pc.Done()
  }

  ghost predicate Reachable(c: Config, s: State) {
    exists run :: Legal(c, Init(c), run) && s == Exec(c, Init(c), run)
  }

  /** No run of the program hangs. */
  ghost predicate NeverHangs(c: Config) {
    forall s | Reachable(c, s) && Stuck(s) :: AllDone(s)
  }

  /** Both kinds of thread, or none at all, or producers alone with fewer items than places. */
  ghost predicate Balanced(c: Config) {
    || (c.producers > 0 && c.consumers > 0)
    || (c.producers == 0 && c.consumers == 0)
    || (c.consumers == 0 && c.nitems < NBUFF)
  }

  ghost predicate Parked(th: Thread) {
    th.pc.PWaitEmpty? || th.pc.CWaitStored? || th.pc.Done()
  }

  /** In a stuck state nobody holds a token and nobody waits for the mutex. */
  lemma StuckParks(c: Config, s: State)
    requires Inv(c, s) && Stuck(s)
    ensures s.mutex == 1 && s.nempty == NBUFF - (s.nput - s.nget)
    ensures s.nstored == s.nput - s.nget + Sum(s.threads, ShutdownPosts)
    ensures forall t: nat | t < |s.threads| :: Parked(s.threads[t])
  {
    forall t: nat | t < |s.threads| ensures InMutex(s.threads[t]) == 0 { assert !Enabled(s, t); }
    SumConstant(s.threads, InMutex, 0);
    forall t: nat | t < |s.threads| ensures Parked(s.threads[t]) { assert !Enabled(s, t); }
    SumConstant(s.threads, EmptyInHand, 0);
    SumConstant(s.threads, StoredInHand, 0);
  }

  lemma StuckIsDone(c: Config, s: State)
    requires Inv(c, s) && Stuck(s) && Balanced(c)
    ensures AllDone(s)
  {
    StuckParks(c, s);
    SumNonNegative(s.threads, ShutdownPosts);
    if c.consumers > 0 { assert !Enabled(s, c.producers) && Parked(s.threads[c.producers]); }
    forall t: nat | t < |s.threads| ensures s.threads[t].pc.Done() {
      assert !Enabled(s, t) && Parked(s.threads[t]);
      if t >= c.producers && !s.threads[t].pc.Done() {
        assert !Enabled(s, 0) && Parked(s.threads[0]);
        if s.threads[0].pc == PDone { SumAtLeast(s.threads, 0, ShutdownPosts); }
      }
    }
  }

  /** From any state some run leads to a stuck one. */
  lemma {:induction false} RunToStuck(c: Config, s: State) returns (run: seq<nat>)
    requires Inv(c, s)
    ensures Legal(c, s, run) && Stuck(Exec(c, s, run))
    decreases Remaining(c, s)
  {
    if Stuck(s) {
      run := [];
    } else {
      var t: nat :| t < |s.threads| && Enabled(s, t);
      StepInv(c, s, t);
      RemainingDecreases(c, s, t);
      var rest := RunToStuck(c, Apply(c, s, t));
      run := [t] + rest;
      assert run[1..] == rest;
    }
  }

  ghost predicate NobodyLeaves(s: State) {
    forall t: nat | t < |s.threads| :: !s.threads[t].pc.Leaving()
  }

  /** Producers alone with no fewer items than places fill the ring and never finish. */
  lemma {:induction false} ProducersAloneStay(c: Config, s: State, run: seq<nat>)
    requires c.consumers == 0 && c.nitems >= NBUFF
    requires Inv(c, s) && NobodyLeaves(s) && Legal(c, s, run)
    ensures NobodyLeaves(Exec(c, s, run))
    decreases |run|
  {
    if run != [] {
      var t := run[0];
      StepInv(c, s, t);
      SumConstant(s.threads, Consumed, 0);
      if s.threads[t].pc == PCritical { RoomToPut(c, s, t); }
      assert s.threads[t].pc.Producer();
      ProducersAloneStay(c, Apply(c, s, t), run[1..]);
    }
  }

  lemma UnbalancedHangs(c: Config) returns (run: seq<nat>)
    requires !Balanced(c)
    ensures Legal(c, Init(c), run) && Stuck(Exec(c, Init(c), run)) && !AllDone(Exec(c, Init(c), run))
  {
    InitInv(c);
    run := RunToStuck(c, Init(c));
    if c.producers == 0 {
      assert Stuck(Init(c));
      run := [];
      assert !Init(c).threads[0].pc.Done();
    } else {
      ProducersAloneStay(c, Init(c), run);
      RunInv(c, Init(c), run);
      assert !Exec(c, Init(c), run).threads[0].pc.Leaving();
    }
  }

  /** The program can hang exactly when only one kind of thread runs and, if these are producers,
   *  the items do not leave a place free. */
  lemma NeverHangsIffBalanced(c: Config)
    ensures NeverHangs(c) <==> Balanced(c)
  {
    if Balanced(c) {
      forall s | Reachable(c, s) && Stuck(s) ensures AllDone(s) {
        var run :| Legal(c, Init(c), run) && s == Exec(c, Init(c), run);
        InitInv(c);
        RunInv(c, Init(c), run);
        StuckIsDone(c, s);
      }
    } else {
      var run := UnbalancedHangs(c);
      assert Reachable(c, Exec(c, Init(c), run));
    }
  }

  function ProducerCount(th: Thread): int { if th.pc.Producer() then th.count else 0 }
  function ConsumerCount(th: Thread): int { if th.pc.Producer() then 0 else th.count }

  lemma FinishedCounts(c: Config, s: State)
    requires Inv(c, s) && Stuck(s) && c.producers > 0 && c.consumers > 0
    ensures AllDone(s) && |s.printed| == c.Items()
    ensures Sum(s.threads, ProducerCount) == c.Items() == Sum(s.threads, ConsumerCount)
  {
    StuckIsDone(c, s);
    assert s.threads[0].pc.Leaving() && s.threads[c.producers].pc.Done();
    assert s.threads[c.producers].pc.Leaving();
    SumPointwise(s.threads, Produced, s.threads, ProducerCount);
    SumPointwise(s.threads, Consumed, s.threads, ConsumerCount);
  }

  /** Every run takes a bounded number of steps.  At every point it has put at most NBUFF items
   *  more than it got, and printed 0, 1, 2, ... in order.  With a producer and a consumer it ends
   *  with all threads returned and the producers' and the consumers' counts each adding up to
   *  the number of items. */
  lemma {:induction false} Outcome(c: Config, run: seq<nat>)
    requires Legal(c, Init(c), run)
    ensures |run| <= Remaining(c, Init(c))
    ensures var s := Exec(c, Init(c), run);
            && 0 <= s.nget <= s.nput <= s.nget + NBUFF
            && |s.printed| == s.nget && (forall i | 0 <= i < s.nget :: s.printed[i] == i)
            && (Stuck(s) && c.producers > 0 && c.consumers > 0 ==>
                  && AllDone(s) && |s.printed| == c.Items()
                  && Sum(s.threads, ProducerCount) == c.Items() == Sum(s.threads, ConsumerCount))
  {
    InitInv(c);
    SumNonNegative(Init(c).threads, Rank);
    RunBounded(c, Init(c), run);
    RunInv(c, Init(c), run);
    var s := Exec(c, Init(c), run);
    SumNonNegative(s.threads, EmptyInHand);
    if Stuck(s) && c.producers > 0 && c.consumers > 0 { FinishedCounts(c, s); }
  }

  // ----- the program

  /** The structure `shared`, with the threads' program counters and their counts. */
  class Program {
    const c: Config
    const buff: array<int>
    var nput: int
    var nputval: int
    var nget: int
    var ngetval: int
    var mutex: int
    var nempty: int
    var nstored: int
    var threads: seq<Thread>
    var printed: seq<int>

    function View(): State
      reads this, buff
    {
      State(buff[..], nput, nputval, nget, ngetval, mutex, nempty, nstored, threads, printed)
    }

    constructor (c: Config)
      ensures this.c == c && fresh(buff) && View() == Init(c) && Inv(c, View())
    {
      this.c := c;
      buff := new int[NBUFF](_ => 0);
      nput, nputval, nget, ngetval := 0, 0, 0, 0;
      mutex, nempty, nstored := 1, NBUFF, 0;
      threads := seq(c.producers + c.consumers, i => Thread(if i < c.producers then PWaitEmpty else CWaitStored, 0));
      printed := [];
      new;
      assert View() == Init(c);
      InitInv(c);
    }

    method Goto(t: nat, pc: Pc, counted: nat)
      requires t < |threads|
      modifies this`threads
      ensures threads == old(threads)[t := Thread(pc, old(threads)[t].count + counted)]
    {
      threads := threads[t := Thread(pc, threads[t].count + counted)];
    }

    /** The next step of the loop in produce(). */
    method Produce(t: nat)
      requires Inv(c, View()) && Enabled(View(), t) && threads[t].pc.Producer()
      modifies this, buff
      ensures View() == Apply(c, old(View()), t)
    {
      hide Sum, Tokens, Roles;
      match threads[t].pc
      case PWaitEmpty => nempty := nempty - 1; Goto(t, PWaitMutex, 0);
      case PWaitMutex => mutex := mutex - 1; Goto(t, PCritical, 0);
      case PCritical =>
        if nput >= c.nitems {
          Goto(t, PExitStored, 0);
        } else {
          buff[nput % NBUFF] := nputval;
          nput := nput + 1;
          nputval := nputval + 1;
          Goto(t, PPostMutex, 0);
        }
      case PPostMutex => mutex := mutex + 1; Goto(t, PPostStored, 0);
      case PPostStored => nstored := nstored + 1; Goto(t, PWaitEmpty, 1);
      case PExitStored => nstored := nstored + 1; Goto(t, PExitEmpty, 0);
      case PExitEmpty => nempty := nempty + 1; Goto(t, PExitMutex, 0);
      case PExitMutex => mutex := mutex + 1; Goto(t, PDone, 0);
    }

    /** The next step of the loop in consume(). */
    method Consume(t: nat)
      requires Inv(c, View()) && Enabled(View(), t) && !threads[t].pc.Producer()
      modifies this
      ensures View() == Apply(c, old(View()), t)
    {
      hide Sum, Tokens, Roles;
      match threads[t].pc
      case CWaitStored => nstored := nstored - 1; Goto(t, CWaitMutex, 0);
      case CWaitMutex => mutex := mutex - 1; Goto(t, CCritical, 0);
      case CCritical =>
        if nget >= c.nitems {
          Goto(t, CExitStored, 0);
        } else {
          printed := printed + [buff[nget % NBUFF]];
          nget := nget + 1;
          ngetval := ngetval + 1;
          Goto(t, CPostMutex, 0);
        }
      case CPostMutex => mutex := mutex + 1; Goto(t, CPostEmpty, 0);
      case CPostEmpty => nempty := nempty + 1; Goto(t, CWaitStored, 1);
      case CExitStored => nstored := nstored + 1; Goto(t, CExitMutex, 0);
      case CExitMutex => mutex := mutex + 1; Goto(t, CDone, 0);
    }

    /** All threads under a scheduler that may pick any thread that can go on: it always reaches
     *  the point where every thread has returned. */
    method RunToTheEnd()
      requires c.producers > 0 && c.consumers > 0 && View() == Init(c) && Inv(c, View())
      modifies this, buff
      ensures AllDone(View())
      ensures |printed| == c.Items() && forall i | 0 <= i < |printed| :: printed[i] == i
      ensures Sum(threads, ProducerCount) == c.Items() == Sum(threads, ConsumerCount)
    {
      while exists t: nat | t < |threads| :: Enabled(View(), t)
        invariant Inv(c, View())
        decreases Remaining(c, View())
      {
        var t: nat :| t < |threads| && Enabled(View(), t);
        StepInv(c, View(), t);
        RemainingDecreases(c, View(), t);
        if threads[t].pc.Producer() { Produce(t); } else { Consume(t); }
      }
      FinishedCounts(c, View());
    }
  }
}
