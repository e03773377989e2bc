/** mutex/prodcons6.c: any number of producers fill an array under one mutex and announce each
 *  item under another; one consumer waits on a condition variable and checks the items without
 *  any lock.
 *
 *  A step is one stretch of code under a mutex, or the consumer's check outside. */
module ProdCons6 {
  import opened Sums

  const MAXNITEMS := 1000000

  /** `Announce`: the item is in the array but nready does not count it yet. */
  datatype ProducerPc = Put | Announce | Returned

  datatype Producer = Producer(pc: ProducerPc, count: nat)

  datatype ConsumerPc = Take | Asleep | Woken | Check | Finished

  /** The program caps nitems at MAXNITEMS. */
  datatype Config = Config(requested: int, producers: nat) {
    function NItems(): int { if requested > MAXNITEMS then MAXNITEMS else requested }
    function Items(): nat { if NItems() < 0 then 0 else NItems() }
  }

  /** `wrong`: how often the consumer found buff[i] != i. */
  datatype State = State(buff: seq<int>, nput: int, nval: int, nready: int,
                         producers: seq<Producer>, consumer: ConsumerPc, i: int, wrong: nat)

  datatype Step = Produce(t: nat) | Consume | SpuriousWake

  ghost function Init(c: Config): State {
    State(seq(MAXNITEMS, _ => 0), 0, 0, 0, seq(c.producers, _ => Producer(Put, 0)),
          if 0 < c.NItems() then Take else Finished, 0, 0)
  }

  predicate Enabled(s: State, step: Step) {
    match step
    case Produce(t) => t < |s.producers| && !s.producers[t].pc.Returned?
    case Consume => s.consumer in {Take, Woken, Check}
    case SpuriousWake => s.consumer.Asleep?
  }

  function ProduceStep(c: Config, s: State, t: nat): State
    requires Enabled(s, Produce(t)) && |s.buff| == MAXNITEMS && 0 <= s.nput
  {
    var th := s.producers[t];
    if th.pc.Put? then
      if s.nput >= c.NItems() then s.(producers := s.producers[t := th.(pc := Returned)])
      else s.(buff := s.buff[s.nput := s.nval], nput := s.nput + 1, nval := s.nval + 1,
              producers := s.producers[t := th.(pc := Announce)])
    else
      s.(consumer := if s.nready == 0 && s.consumer.Asleep? then Woken else s.consumer,
         nready := s.nready + 1,
         producers := s.producers[t := Producer(Put, th.count + 1)])
  }

  function ConsumeStep(c: Config, s: State): State
    requires Enabled(s, Consume) && |s.buff| == MAXNITEMS && 0 <= s.i
  {
    if s.consumer.Check? then
      s.(wrong := s.wrong + (if s.i < |s.buff| && s.buff[s.i] == s.i then 0 else 1), i := s.i + 1,
         consumer := if s.i + 1 < c.NItems() then Take else Finished)
    else if s.nready == 0 then s.(consumer := Asleep)
    else s.(nready := s.nready - 1, consumer := Check)
  }

  function Apply(c: Config, s: State, step: Step): State
    requires Enabled(s, step) && |s.buff| == MAXNITEMS && 0 <= s.nput && 0 <= s.i
  {
    match step
    case Produce(t) => ProduceStep(c, s, t)
    case Consume => ConsumeStep(c, s)
    case SpuriousWake => s.(consumer := Woken)
  }

  ghost predicate Legal(c: Config, s: State, steps: seq<Step>)
    decreases |steps|
  {
    || steps == []
    || (Enabled(s, steps[0]) && |s.buff| == MAXNITEMS && 0 <= s.nput && 0 <= s.i
        && Legal(c, Apply(c, s, steps[0]), steps[1..]))
  }

  ghost function Exec(c: Config, s: State, steps: seq<Step>): State
    requires Legal(c, s, steps)
    decreases |steps|
  {
    if steps == [] then s else Exec(c, Apply(c, s, steps[0]), steps[1..])
  }

  // ----- invariant

  function Unannounced(p: Producer): int { if p.pc.Announce? then 1 else 0 }
  function Puts(p: Producer): int { p.count + Unannounced(p) }

  /** Items checked or taken, counted as ready, or put but not announced make up the items put. */
  ghost predicate Inv(c: Config, s: State) {
    && |s.buff| == MAXNITEMS && |s.producers| == c.producers
    && 0 <= s.nput <= c.Items() && s.nval == s.nput && 0 <= s.nready
    && (forall k | 0 <= k < s.nput :: s.buff[k] == k)
    && 0 <= s.i && s.i + (if s.consumer.Check? then 1 else 0) + s.nready + Sum(s.producers, Unannounced) == s.nput
    && s.nput == Sum(s.producers, Puts)
    && (forall t: nat | t < |s.producers| && s.producers[t].pc.Returned? :: s.nput >= c.NItems())
    && (s.consumer.Asleep? ==> s.nready == 0)
    && (if s.consumer.Finished? then s.i == c.Items() else s.i < c.NItems())
    && s.wrong == 0
  }

  lemma StepInv(c: Config, s: State, step: Step)
    requires Inv(c, s) && Enabled(s, step)
    ensures Inv(c, Apply(c, s, step))
  {
    hide Sum;
    var r := Apply(c, s, step);
    SumNonNegative(s.producers, Unannounced);
    if step.Produce? {
      SumUpdate(s.producers, step.t, r.producers[step.t], Unannounced);
      SumUpdate(s.producers, step.t, r.producers[step.t], Puts);
    }
  }

  lemma InitInv(c: Config)
    ensures Inv(c, Init(c))
  {
    SumConstant(Init(c).producers, Unannounced, 0);
    SumConstant(Init(c).producers, Puts, 0);
  }

  lemma {:induction false} RunInv(c: Config, s: State, steps: seq<Step>)
    requires Inv(c, s) && Legal(c, s, steps)
    ensures Inv(c, Exec(c, s, steps))
    decreases |steps|
  {
    if steps != [] {
      StepInv(c, s, steps[0]);
      RunInv(c, Apply(c, s, steps[0]), steps[1..]);
    }
  }

  // ----- termination

  function RankP(p: Producer): int {
    match p.pc case Put => 1 case Announce => 5 case Returned => 0
  }

  function RankC(pc: ConsumerPc): int {
    match pc case Take => 3 case Woken => 3 case Check => 2 case Asleep => 0 case Finished => 0
  }

  ghost function Remaining(c: Config, s: State): int {
    5 * (c.Items() - s.nput) + Sum(s.producers, RankP) + 2 * (c.Items() - s.i) + RankC(s.consumer)
  }

  function SpuriousWakes(steps: seq<Step>): nat {
    if steps == [] then 0 else (if steps[0].SpuriousWake? then 1 else 0) + SpuriousWakes(steps[1..])
  }

  lemma RemainingDecreases(c: Config, s: State, step: Step)
    requires Inv(c, s) && Enabled(s, step)
    ensures Remaining(c, Apply(c, s, step)) <= Remaining(c, s) + if step.SpuriousWake? then 3 else -1
    ensures 0 <= Remaining(c, s)
  {
    hide Sum;
    var r := Apply(c, s, step);
    SumNonNegative(s.producers, RankP);
    if step.Produce? { SumUpdate(s.producers, step.t, r.producers[step.t], RankP); }
  }

  lemma {:induction false} RunBounded(c: Config, s: State, steps: seq<Step>)
    requires Inv(c, s) && Legal(c, s, steps)
    ensures |steps| <= Remaining(c, s) + 4 * SpuriousWakes(steps)
    decreases |steps|
  {
    SumNonNegative(s.producers, RankP);
    if steps != [] {
      StepInv(c, s, steps[0]);
      RemainingDecreases(c, s, steps[0]);
      RunBounded(c, Apply(c, s, steps[0]), steps[1..]);
    }
  }

  // ----- nobody is left behind

  /** Without a spurious wake-up nothing more can happen. */
  ghost predicate Stuck(s: State) {
    !Enabled(s, Consume) && forall t: nat :: !Enabled(s, Produce(t))
  }

  ghost predicate AllReturned(s: State) {
    s.consumer.Finished? && forall t: nat | t < |s.producers| :: s.producers[t].pc.Returned?
  }

  ghost predicate NeverHangs(c: Config) {
    forall steps | Legal(c, Init(c), steps) && Stuck(Exec(c, Init(c), steps)) :: AllReturned(Exec(c, Init(c), steps))
  }

  lemma StuckIsDone(c: Config, s: State)
    requires Inv(c, s) && Stuck(s) && (c.producers > 0 || c.NItems() <= 0)
    ensures AllReturned(s)
  {
    forall t: nat | t < |s.producers| ensures s.producers[t].pc.Returned? { assert !Enabled(s, Produce(t)); }
    SumConstant(s.producers, Unannounced, 0);
    if c.producers > 0 { assert s.producers[0].pc.Returned?; }
  }

  /** The consumer waits for ever exactly when items are asked for and nobody produces them. */
  lemma NeverHangsIffProduced(c: Config)
    ensures NeverHangs(c) <==> c.producers > 0 || c.NItems() <= 0
  {
    if c.producers > 0 || c.NItems() <= 0 {
      forall steps | Legal(c, Init(c), steps) && Stuck(Exec(c, Init(c), steps)) ensures AllReturned(Exec(c, Init(c), steps)) {
        InitInv(c);
        RunInv(c, Init(c), steps);
        StuckIsDone(c, Exec(c, Init(c), steps));
      }
    } else {
      var asleep := Apply(c, Init(c), Consume);
      assert Legal(c, asleep, [Consume][1..]) && Exec(c, asleep, [Consume][1..]) == asleep;
      assert Legal(c, Init(c), [Consume]) && Exec(c, Init(c), [Consume]) == asleep;
      assert Stuck(asleep) && !AllReturned(asleep);
    }
  }

  function Count(p: Producer): int { p.count }

  /** For any number of producers and any interleaving: the consumer only ever finds buff[i] == i,
   *  although producers may announce in another order than they put; it sleeps only while
   *  nothing is ready; apart from spurious wake-ups the run is bounded; and at the end the
   *  counts add up to the number of items. */
  lemma {:induction false} ConsumerFindsItems(c: Config, steps: seq<Step>)
    requires Legal(c, Init(c), steps)
    ensures |steps| <= 7 * c.Items() + c.producers + 3 + 4 * SpuriousWakes(steps)
    ensures var s := Exec(c, Init(c), steps);
            && s.wrong == 0
            && (s.consumer.Asleep? ==> s.nready == 0)
            && (s.consumer.Check? ==> 0 <= s.i < s.nput && s.i < |s.buff| && s.buff[s.i] == s.i)
            && (AllReturned(s) ==> s.i == c.Items() && (c.producers > 0 ==> Sum(s.producers, Count) == c.Items()))
  {
    InitInv(c);
    RunInv(c, Init(c), steps);
    SumConstant(Init(c).producers, RankP, 1);
    RunBounded(c, Init(c), steps);
    var s := Exec(c, Init(c), steps);
    SumNonNegative(s.producers, Unannounced);
    if AllReturned(s) {
      SumPointwise(s.producers, Puts, s.producers, Count);
      if c.producers > 0 { assert s.producers[0].pc.Returned?; }
    }
  }

  lemma CountsAddUp(c: Config, s: State)
    requires Inv(c, s) && AllReturned(s) && c.producers > 0
    ensures Sum(s.producers, Count) == c.Items()
  {
    SumPointwise(s.producers, Puts, s.producers, Count);
    assert s.producers[0].pc.Returned?;
  }

  // ----- the program

  /** The globals, with the threads' program counters. */
  class Program {
    const c: Config
    const buff: array<int>
    var nput: int
    var nval: int
    var nready: int
    var producers: seq<Producer>
    var consumer: ConsumerPc
    var i: int
    var wrong: nat

    ghost function View(): State
      reads this, buff
    {
      State(buff[..], nput, nval, nready, producers, consumer, i, wrong)
    }

    constructor (c: Config)
      ensures this.c == c && fresh(buff) && View() == Init(c)
    {
      this.c := c;
      buff := new int[MAXNITEMS](_ => 0);
      nput, nval, nready, i, wrong := 0, 0, 0, 0, 0;
      producers := seq(c.producers, _ => Producer(Put, 0));
      consumer := if 0 < c.NItems() then Take else Finished;
      new;
      assert View() == Init(c);
    }

    /** The next stretch of produce() in thread `t`. */
    method Produce(t: nat)
      requires Inv(c, View()) && Enabled(View(), Step.Produce(t))
      modifies this, buff
      ensures View() == Apply(c, old(View()), Step.Produce(t))
    {
      hide Sum;
      if producers[t].pc.Put? {
        if nput >= c.NItems() {
          producers := producers[t := producers[t].(pc := Returned)];
          return;
        }
        buff[nput] := nval;
        nput := nput + 1;
        nval := nval + 1;
        producers := producers[t := producers[t].(pc := Announce)];
      } else {
        if nready == 0 && consumer.Asleep? { consumer := Woken; }
        nready := nready + 1;
        producers := producers[t := Producer(Put, producers[t].count + 1)];
      }
    }

    /** The next stretch of consume(). */
    method Consume()
      requires Inv(c, View()) && Enabled(View(), Step.Consume)
      modifies this
      ensures View() == Apply(c, old(View()), Step.Consume)
    {
      if consumer.Check? {
        SumNonNegative(producers, Unannounced);
        wrong := wrong + (if buff[i] == i then 0 else 1);
        i := i + 1;
        consumer := if i < c.NItems() then Take else Finished;
      } else if nready == 0 {
        consumer := Asleep;
      } else {
        nready := nready - 1;
        consumer := Check;
      }
    }

    /** All threads under any scheduler, without spurious wake-ups: everybody returns, the
     *  consumer having found every item in its place. */
    method RunToTheEnd()
      requires c.producers > 0 && View() == Init(c)
      modifies this, buff
      ensures AllReturned(View()) && wrong == 0 && i == c.Items()
      ensures Sum(producers, Count) == c.Items()
    {
      hide Sum;
      InitInv(c);
      while consumer in {Take, Woken, Check} || exists t: nat | t < |producers| :: !producers[t].pc.Returned?
        invariant Inv(c, View())
        decreases Remaining(c, View())
      {
        var producerFirst: bool := *;
        ghost var before := View();
        if consumer in {Take, Woken, Check} && (!producerFirst || forall t: nat | t < |producers| :: producers[t].pc.Returned?) {
          StepInv(c, before, Step.Consume);
          RemainingDecreases(c, before, Step.Consume);
          Consume();
        } else {
          var t: nat :| t < |producers| && !producers[t].pc.Returned?;
          StepInv(c, before, Step.Produce(t));
          RemainingDecreases(c, before, Step.Produce(t));
          Produce(t);
        }
      }
      StuckIsDone(c, View());
      CountsAddUp(c, View());
    }
  }
}
