/** Blocking senders and receivers of one message queue (my_pxmsg_mmp/mq_send.c and
 *  mq_receive.c), which all sleep on the one condition variable mqh_wait.
 *
 *  A step is one stretch of code under the mutex, as in QueueSpec.  Any number of threads, any
 *  mix of blocking and non-blocking calls, any interleaving, spurious wake-ups included. */
module QueueBlocking {
  import opened Basics
  import opened Sums
  import opened QueueSpec

  /** A sleeping or woken sender carries the message it wants to send. */
  datatype Phase = Running | SleepSend(m: Message) | WokenSend(m: Message) | SleepReceive | WokenReceive {
    predicate Asleep() { SleepSend? || SleepReceive? }
    predicate Woken() { WokenSend? || WokenReceive? }
    predicate Sending() { SleepSend? || WokenSend? }
    predicate Receiving() { SleepReceive? || WokenReceive? }
  }

  /** Who may call what on a queue for `maxmsg` messages; `pid`: the process registered for
   *  notification by a signal, 0 for none. */
  datatype Config = Config(threads: nat, senders: set<nat>, receivers: set<nat>, maxmsg: nat, msgsize: nat, pid: nat) {
    ghost predicate Valid() {
      && maxmsg > 0 && msgsize > 0
      && forall t | t in senders + receivers :: t < threads
    }
  }

  /** `sent` and `received` record the completed calls. */
  datatype State = State(q: Queue, threads: seq<Phase>, sent: seq<Message>, received: seq<Message>)

  /** `w`: the sleeper that pthread_cond_signal picks, if the stretch signals and anyone sleeps. */
  datatype Step =
    | Send(t: nat, m: Message, nonblock: bool, w: nat)
    | SendResume(t: nat, w: nat)
    | Receive(t: nat, maxlen: nat, nonblock: bool, w: nat)
    | ReceiveResume(t: nat, w: nat)
    | SpuriousWake(t: nat)

  ghost function Init(c: Config): State {
    State(Queue(c.maxmsg, c.msgsize, [], 0, c.pid, true), seq(c.threads, _ => Running), [], [])
  }

  ghost predicate SomeAsleep(s: State) {
    exists t | 0 <= t < |s.threads| :: s.threads[t].Asleep()
  }

  ghost predicate MayPick(s: State, w: nat) {
    SomeAsleep(s) ==> w < |s.threads| && s.threads[w].Asleep()
  }

  ghost predicate Enabled(c: Config, s: State, step: Step) {
    && step.t < |s.threads|
    && match step
       case Send(t, m, nonblock, w) => t in c.senders && s.threads[t].Running? && MayPick(s, w)
       case SendResume(t, w) => s.threads[t].WokenSend? && MayPick(s, w)
       case Receive(t, maxlen, nonblock, w) => t in c.receivers && s.threads[t].Running? && MayPick(s, w)
       case ReceiveResume(t, w) => s.threads[t].WokenReceive? && MayPick(s, w)
       case SpuriousWake(t) => s.threads[t].Asleep()
  }

  function WakeUp(p: Phase): Phase {
    match p
    case SleepSend(m) => WokenSend(m)
    case SleepReceive => WokenReceive
    case _ => p
  }

  function Signal(threads: seq<Phase>, signal: bool, w: nat): seq<Phase> {
    if signal && w < |threads| then threads[w := WakeUp(threads[w])] else threads
  }

  ghost function ApplySend(s: State, t: nat, m: Message, nonblock: bool, woken: bool, w: nat): State
    requires t < |s.threads|
  {
    match SendEffect(s.q, m, nonblock, woken)
    case (q, Sent(signal, _)) => State(q, Signal(s.threads[t := Running], signal, w), s.sent + [m], s.received)
    case (q, SendSleeps) => s.(q := q, threads := s.threads[t := SleepSend(m)])
    case (q, _) => s.(q := q)
  }

  ghost function ApplyReceive(s: State, t: nat, maxlen: nat, nonblock: bool, woken: bool, w: nat): State
    requires t < |s.threads|
  {
    match ReceiveEffect(s.q, maxlen, nonblock, woken)
    case (q, Received(m, signal)) => State(q, Signal(s.threads[t := Running], signal, w), s.sent, s.received + [m])
    case (q, ReceiveSleeps) => s.(q := q, threads := s.threads[t := SleepReceive])
    case (q, _) => s.(q := q)
  }

  ghost function Apply(c: Config, s: State, step: Step): State
    requires Enabled(c, s, step)
  {
    match step
    case Send(t, m, nonblock, w) => ApplySend(s, t, m, nonblock, false, w)
    case SendResume(t, w) => ApplySend(s, t, s.threads[t].m, false, true, w)
    case Receive(t, maxlen, nonblock, w) => ApplyReceive(s, t, maxlen, nonblock, false, w)
    case ReceiveResume(t, w) => ApplyReceive(s, t, 0, false, true, w)
    case SpuriousWake(t) => s.(threads := s.threads[t := WakeUp(s.threads[t])])
  }

  ghost predicate Legal(c: Config, s: State, steps: seq<Step>)
    decreases |steps|
  {
    steps == [] || (Enabled(c, s, steps[0]) && Legal(c, Apply(c, s, steps[0]), steps[1..]))
  }

  ghost function Exec(c: Config, s: State, steps: seq<Step>): State
    requires Legal(c, s, steps)
    decreases |steps|
  {
    if steps == [] then s else Exec(c, Apply(c, s, steps[0]), steps[1..])
  }

  /** The states that some finite run leads to. */
  ghost predicate Reachable(c: Config, s: State) {
    exists steps :: Legal(c, Init(c), steps) && s == Exec(c, Init(c), steps)
  }

  lemma {:induction false} OneMore(c: Config, s: State, steps: seq<Step>, step: Step)
    requires Legal(c, s, steps) && Enabled(c, Exec(c, s, steps), step)
    ensures Legal(c, s, steps + [step])
    ensures Exec(c, s, steps + [step]) == Apply(c, Exec(c, s, steps), step)
    decreases |steps|
  {
    if steps == [] {
      assert Legal(c, Apply(c, s, step), [step][1..]);
    } else {
      assert (steps + [step])[1..] == steps[1..] + [step];
      OneMore(c, Apply(c, s, steps[0]), steps[1..], step);
    }
  }

  lemma Extend(c: Config, s: State, step: Step)
    requires Reachable(c, s) && Enabled(c, s, step)
    ensures Reachable(c, Apply(c, s, step))
  {
    var steps :| Legal(c, Init(c), steps) && s == Exec(c, Init(c), steps);
    OneMore(c, Init(c), steps, step);
  }

  lemma InitReachable(c: Config)
    ensures Reachable(c, Init(c))
  {
    assert Legal(c, Init(c), []);
  }

  // ----- every configuration: capacity, order, conservation, the count of waiting receivers

  function InReceiveWait(p: Phase): int { if p.Receiving() then 1 else 0 }

  /** A thread waits only in a call it may make. */
  ghost predicate InRole(c: Config, threads: seq<Phase>) {
    forall t: nat | t < |threads| ::
      && (threads[t].Sending() ==> t in c.senders)
      && (threads[t].Receiving() ==> t in c.receivers)
  }

  ghost predicate Inv(c: Config, s: State) {
    && |s.threads| == c.threads && s.q.maxmsg == c.maxmsg
    && |s.q.messages| <= c.maxmsg
    && Accounts(s.sent, s.received, s.q.messages)
    && s.q.nwait == Sum(s.threads, InReceiveWait)
    && InRole(c, s.threads)
  }

  /** A step of `t` that leaves it in phase `p`, with or without a signal. */
  lemma Moves(c: Config, threads: seq<Phase>, t: nat, p: Phase, signal: bool, w: nat)
    requires t < |threads| && InRole(c, threads)
    requires (p.Sending() ==> t in c.senders) && (p.Receiving() ==> t in c.receivers)
    ensures var u := Signal(threads[t := p], signal, w);
            && InRole(c, u)
            && Sum(u, InReceiveWait) == Sum(threads, InReceiveWait) - InReceiveWait(threads[t]) + InReceiveWait(p)
  {
    SumUpdate(threads, t, p, InReceiveWait);
    var u := threads[t := p];
    if w < |u| { SumUpdate(u, w, WakeUp(u[w]), InReceiveWait); }
  }

  lemma SendInv(c: Config, s: State, t: nat, m: Message, nonblock: bool, woken: bool, w: nat)
    requires c.Valid() && Inv(c, s) && t < |s.threads| && t in c.senders
    requires s.threads[t] == if woken then WokenSend(m) else Running
    ensures Inv(c, ApplySend(s, t, m, nonblock, woken, w))
  {
    match SendEffect(s.q, m, nonblock, woken)
    case (q, Sent(signal, _)) =>
      AccountsSend(s.sent, s.received, s.q.messages, m);
      Moves(c, s.threads, t, Running, signal, w);
    case (q, SendSleeps) =>
      Moves(c, s.threads, t, SleepSend(m), false, w);
    case (q, _) =>
  }

  lemma ReceiveInv(c: Config, s: State, t: nat, maxlen: nat, nonblock: bool, woken: bool, w: nat)
    requires c.Valid() && Inv(c, s) && t < |s.threads| && t in c.receivers
    requires s.threads[t] == if woken then WokenReceive else Running
    ensures Inv(c, ApplyReceive(s, t, maxlen, nonblock, woken, w))
  {
    match ReceiveEffect(s.q, maxlen, nonblock, woken)
    case (q, Received(m, signal)) =>
      AccountsReceive(s.sent, s.received, s.q.messages);
      Moves(c, s.threads, t, Running, signal, w);
    case (q, ReceiveSleeps) =>
      Moves(c, s.threads, t, SleepReceive, false, w);
    case (q, _) =>
  }

  lemma StepInv(c: Config, s: State, step: Step)
    requires c.Valid() && Inv(c, s) && Enabled(c, s, step)
    ensures Inv(c, Apply(c, s, step))
  {
    match step
    case SpuriousWake(t) => Moves(c, s.threads, t, WakeUp(s.threads[t]), false, 0);
    case Send(t, m, nonblock, w) => SendInv(c, s, t, m, nonblock, false, w);
    case SendResume(t, w) => SendInv(c, s, t, s.threads[t].m, false, true, w);
    case Receive(t, maxlen, nonblock, w) => ReceiveInv(c, s, t, maxlen, nonblock, false, w);
    case ReceiveResume(t, w) => ReceiveInv(c, s, t, 0, false, true, w);
  }

  lemma InitInv(c: Config)
    ensures Inv(c, Init(c))
  {
    SumConstant(Init(c).threads, InReceiveWait, 0);
  }

  lemma {:induction false} RunInv(c: Config, s: State, steps: seq<Step>)
    requires c.Valid() && Inv(c, s) && Legal(c, s, steps)
    ensures Inv(c, Exec(c, s, steps))
    decreases |steps|
  {
    if steps != [] {
      StepInv(c, s, steps[0]);
      RunInv(c, Apply(c, s, steps[0]), steps[1..]);
    }
  }

  /** In every reachable state, with any number of threads: the queue holds at most maxmsg
   *  messages in descending priority, each priority's messages come out in the order they went
   *  in, nothing is lost or invented, and mqh_nwait counts the receivers in their wait loop. */
  lemma {:induction false} QueueOverRuns(c: Config, s: State, p: nat)
    requires c.Valid() && Reachable(c, s)
    ensures |s.q.messages| <= c.maxmsg && Sorted(s.q.messages)
    ensures OfPriority(s.received, p) <= OfPriority(s.sent, p)
    ensures OfPriority(s.sent, p) == OfPriority(s.received, p) + OfPriority(s.q.messages, p)
    ensures multiset(s.sent) == multiset(s.received) + multiset(s.q.messages)
    ensures s.q.nwait == Sum(s.threads, InReceiveWait)
  {
    var steps :| Legal(c, Init(c), steps) && s == Exec(c, Init(c), steps);
    InitInv(c);
    RunInv(c, Init(c), steps);
    Conservation(s.sent, s.received, s.q.messages);
  }

  // ----- lost wake-ups

  /** A thread could go on but sleeps, and no woken thread is on its way. */
  ghost predicate Stranded(c: Config, s: State) {
    && (forall t | 0 <= t < |s.threads| :: !s.threads[t].Woken())
    && exists t | 0 <= t < |s.threads| ::
         || (s.threads[t].SleepReceive? && s.q.messages != [])
         || (s.threads[t].SleepSend? && |s.q.messages| < c.maxmsg)
  }

  ghost predicate NeverStrands(c: Config) {
    forall s | Reachable(c, s) :: !Stranded(c, s)
  }

  /** Nobody sends, nobody receives, or at most two threads use the queue. */
  ghost predicate AtMostTwoOrOneSided(c: Config) {
    c.senders == {} || c.receivers == {} || |c.senders + c.receivers| <= 2
  }

  /** A sleeping receiver sees an empty queue and a sleeping sender a full one. */
  ghost predicate Tight(c: Config, s: State) {
    forall t: nat | t < |s.threads| :: TightAt(c, s, t)
  }

  lemma TwoOnly<T>(all: set<T>, a: T, b: T, x: T)
    requires |all| <= 2 && {a, b, x} <= all && a != b
    ensures x == a || x == b
  {
    if x != a && x != b {
      assert |{a, b, x}| == 3;
      Subsets({a, b, x}, all);
    }
  }

  /** Who else can be asleep while `t` runs: with at most two threads, only the one signalled. */
  lemma OnlyThePicked(c: Config, s: State, t: nat, w: nat, k: nat)
    requires Inv(c, s) && |c.senders + c.receivers| <= 2
    requires t < |s.threads| && t in c.senders + c.receivers && !s.threads[t].Asleep()
    requires MayPick(s, w) && k < |s.threads| && s.threads[k].Asleep()
    ensures k == w
  {
    TwoOnly(c.senders + c.receivers, t, w, k);
  }

  ghost predicate TightAt(c: Config, s: State, k: nat)
    requires k < |s.threads|
  {
    && (s.threads[k].SleepReceive? ==> s.q.messages == [])
    && (s.threads[k].SleepSend? ==> |s.q.messages| == c.maxmsg)
  }

  lemma TightSend(c: Config, s: State, t: nat, m: Message, nonblock: bool, woken: bool, w: nat, k: nat)
    requires c.Valid() && AtMostTwoOrOneSided(c) && Inv(c, s) && k < |s.threads| && TightAt(c, s, k)
    requires t < |s.threads| && t in c.senders && MayPick(s, w)
    requires s.threads[t] == if woken then WokenSend(m) else Running
    ensures TightAt(c, ApplySend(s, t, m, nonblock, woken, w), k)
  {
    if s.threads[k].Asleep() && |c.senders + c.receivers| <= 2 { OnlyThePicked(c, s, t, w, k); }
  }

  lemma TightReceive(c: Config, s: State, t: nat, maxlen: nat, nonblock: bool, woken: bool, w: nat, k: nat)
    requires c.Valid() && AtMostTwoOrOneSided(c) && Inv(c, s) && k < |s.threads| && TightAt(c, s, k)
    requires t < |s.threads| && t in c.receivers && MayPick(s, w)
    requires s.threads[t] == if woken then WokenReceive else Running
    ensures TightAt(c, ApplyReceive(s, t, maxlen, nonblock, woken, w), k)
  {
    if s.threads[k].Asleep() && |c.senders + c.receivers| <= 2 { OnlyThePicked(c, s, t, w, k); }
  }

  lemma TightStep(c: Config, s: State, step: Step)
    requires c.Valid() && AtMostTwoOrOneSided(c) && Inv(c, s) && Tight(c, s) && Enabled(c, s, step)
    ensures Tight(c, Apply(c, s, step))
  {
    var r := Apply(c, s, step);
    forall k: nat | k < |r.threads| ensures TightAt(c, r, k) {
      assert TightAt(c, s, k);
      match step
      case SpuriousWake(t) =>
      case Send(t, m, nonblock, w) => TightSend(c, s, t, m, nonblock, false, w, k);
      case SendResume(t, w) => TightSend(c, s, t, s.threads[t].m, false, true, w, k);
      case Receive(t, maxlen, nonblock, w) => TightReceive(c, s, t, maxlen, nonblock, false, w, k);
      case ReceiveResume(t, w) => TightReceive(c, s, t, 0, false, true, w, k);
    }
  }

  lemma {:induction false} TightRun(c: Config, s: State, steps: seq<Step>)
    requires c.Valid() && AtMostTwoOrOneSided(c) && Inv(c, s) && Tight(c, s) && Legal(c, s, steps)
    ensures Tight(c, Exec(c, s, steps))
    decreases |steps|
  {
    if steps != [] {
      StepInv(c, s, steps[0]);
      TightStep(c, s, steps[0]);
      TightRun(c, Apply(c, s, steps[0]), steps[1..]);
    }
  }

  /** One sender and one receiver (or any two threads): neither sleeps when it could go on, and
   *  the two never sleep on opposite ends at once. */
  lemma TwoThreadsNeverMiss(c: Config, s: State, a: nat, b: nat)
    requires c.Valid() && AtMostTwoOrOneSided(c) && Reachable(c, s)
    requires a < |s.threads| && b < |s.threads|
    ensures s.threads[a].SleepReceive? ==> s.q.messages == []
    ensures s.threads[a].SleepSend? ==> |s.q.messages| == c.maxmsg
    ensures !(s.threads[a].SleepReceive? && s.threads[b].SleepSend?)
  {
    var steps :| Legal(c, Init(c), steps) && s == Exec(c, Init(c), steps);
    InitInv(c);
    TightRun(c, Init(c), steps);
    assert TightAt(c, s, a) && TightAt(c, s, b);
  }

  // ----- and with a third thread the protocol can strand one

  const PROBE := Message(0, [])

  lemma CallSend(c: Config, s: State, t: nat, w: nat) returns (r: State)
    requires c.Valid() && Reachable(c, s) && t in c.senders && t < |s.threads| && s.threads[t].Running? && MayPick(s, w)
    ensures Reachable(c, r)
    ensures |s.q.messages| < c.maxmsg ==>
              |r.q.messages| == |s.q.messages| + 1 && r.threads == Signal(s.threads, s.q.messages == [], w)
    ensures |s.q.messages| == c.maxmsg ==>
              r.q.messages == s.q.messages && r.threads == s.threads[t := SleepSend(PROBE)]
    ensures s.q.messages != [] || s.q.nwait > 0 ==> r.q.pid == s.q.pid
    ensures r.q.nwait == s.q.nwait
  {
    QueueOverRuns(c, s, 0);
    SizesFixed(c, s);
    Extend(c, s, Send(t, PROBE, false, w));
    r := Apply(c, s, Send(t, PROBE, false, w));
  }

  lemma ResumeSend(c: Config, s: State, t: nat, w: nat) returns (r: State)
    requires c.Valid() && Reachable(c, s) && t < |s.threads| && s.threads[t] == WokenSend(PROBE) && MayPick(s, w)
    ensures Reachable(c, r)
    ensures |s.q.messages| < c.maxmsg ==>
              |r.q.messages| == |s.q.messages| + 1
              && r.threads == Signal(s.threads[t := Running], s.q.messages == [], w)
    ensures |s.q.messages| == c.maxmsg ==>
              r.q.messages == s.q.messages && r.threads == s.threads[t := SleepSend(PROBE)]
    ensures r.q.pid == s.q.pid && r.q.nwait == s.q.nwait
  {
    SizesFixed(c, s);
    Extend(c, s, SendResume(t, w));
    r := Apply(c, s, SendResume(t, w));
  }

  lemma CallReceive(c: Config, s: State, t: nat, w: nat) returns (r: State)
    requires c.Valid() && Reachable(c, s) && t in c.receivers && t < |s.threads| && s.threads[t].Running? && MayPick(s, w)
    ensures Reachable(c, r)
    ensures s.q.messages != [] ==>
              |r.q.messages| == |s.q.messages| - 1
              && r.threads == Signal(s.threads, |s.q.messages| == c.maxmsg, w)
    ensures s.q.messages == [] ==> r.q.messages == [] && r.threads == s.threads[t := SleepReceive]
    ensures r.q.pid == s.q.pid && r.q.nwait == s.q.nwait + if s.q.messages == [] then 1 else 0
  {
    SizesFixed(c, s);
    Extend(c, s, Receive(t, s.q.msgsize, false, w));
    r := Apply(c, s, Receive(t, s.q.msgsize, false, w));
  }

  lemma ResumeReceive(c: Config, s: State, t: nat, w: nat) returns (r: State)
    requires c.Valid() && Reachable(c, s) && t < |s.threads| && s.threads[t].WokenReceive? && MayPick(s, w)
    ensures Reachable(c, r)
    ensures s.q.messages != [] ==>
              |r.q.messages| == |s.q.messages| - 1
              && r.threads == Signal(s.threads[t := Running], |s.q.messages| == c.maxmsg, w)
    ensures s.q.messages == [] ==> r.q.messages == [] && r.threads == s.threads[t := SleepReceive]
    ensures r.q.pid == s.q.pid && r.q.nwait == s.q.nwait - if s.q.messages == [] then 0 else 1
  {
    SizesFixed(c, s);
    Extend(c, s, ReceiveResume(t, w));
    r := Apply(c, s, ReceiveResume(t, w));
  }

  lemma SizesFixed(c: Config, s: State)
    requires c.Valid() && Reachable(c, s)
    ensures s.q.maxmsg == c.maxmsg && |s.threads| == c.threads
  {
    var steps :| Legal(c, Init(c), steps) && s == Exec(c, Init(c), steps);
    InitInv(c);
    RunInv(c, Init(c), steps);
  }

  /** A reached state with `n` messages in which three threads are in the given phases and all
   *  others run. */
  ghost predicate At(c: Config, s: State, n: nat, x: nat, px: Phase, y: nat, py: Phase, z: nat, pz: Phase) {
    && Reachable(c, s) && |s.q.messages| == n
    && |s.threads| == c.threads && x < c.threads && y < c.threads && z < c.threads
    && s.threads[x] == px && s.threads[y] == py && s.threads[z] == pz
    && forall t: nat | t < c.threads && t != x && t != y && t != z :: s.threads[t].Running?
  }

  /** One sender alone fills the queue. */
  lemma {:induction false} Fill(c: Config, a: nat, k: nat) returns (s: State)
    requires c.Valid() && a in c.senders && k <= c.maxmsg
    ensures Reachable(c, s) && |s.q.messages| == k && s.threads == Init(c).threads
  {
    if k == 0 {
      InitReachable(c);
      s := Init(c);
    } else {
      var s0 := Fill(c, a, k - 1);
      assert a in c.senders + c.receivers;
      s := CallSend(c, s0, a, a);
    }
  }

  ghost predicate Trio(c: Config, x: nat, y: nat, z: nat) {
    && c.Valid() && x != y && y != z && x != z
    && {x, y, z} <= c.senders + c.receivers
  }

  /** Two receivers fall asleep, one sender sends one message and wakes the first. */
  lemma OneOfTwoReceiversWoken(c: Config, a: nat, r1: nat, r2: nat) returns (s: State)
    requires Trio(c, a, r1, r2) && a in c.senders && r1 in c.receivers && r2 in c.receivers
    ensures At(c, s, 1, a, Running, r1, WokenReceive, r2, SleepReceive)
  {
    assert a in {a, r1, r2} && r1 in {a, r1, r2} && r2 in {a, r1, r2};
    InitReachable(c);
    s := CallReceive(c, Init(c), r1, 0);
    s := CallReceive(c, s, r2, r1);
    s := CallSend(c, s, a, r1);
  }

  lemma ReceiverStrands(c: Config, a: nat, r1: nat, r2: nat) returns (s: State)
    requires Trio(c, a, r1, r2) && a in c.senders && r1 in c.receivers && r2 in c.receivers
    ensures Reachable(c, s) && Stranded(c, s)
  {
    s := OneOfTwoReceiversWoken(c, a, r1, r2);
    if c.maxmsg == 1 {
      s := ReceiverStrandsAtOne(c, s, a, r1, r2);
    } else if c.maxmsg == 2 {
      s := ReceiverStrandsAtTwo(c, s, a, r1, r2);
    } else {
      s := CallSend(c, s, a, r2);
      assert At(c, s, 2, a, Running, r1, WokenReceive, r2, SleepReceive);
      s := ResumeReceive(c, s, r1, r2);
      assert At(c, s, 1, a, Running, r1, Running, r2, SleepReceive);
    }
  }

  lemma ReceiverStrandsAtOne(c: Config, s0: State, a: nat, r1: nat, r2: nat) returns (s: State)
    requires Trio(c, a, r1, r2) && a in c.senders && c.maxmsg == 1
    requires At(c, s0, 1, a, Running, r1, WokenReceive, r2, SleepReceive)
    ensures Reachable(c, s) && Stranded(c, s)
  {
    s := CallSend(c, s0, a, r2);
    assert At(c, s, 1, a, SleepSend(PROBE), r1, WokenReceive, r2, SleepReceive);
    s := ResumeReceive(c, s, r1, r2);
    assert At(c, s, 0, a, SleepSend(PROBE), r1, Running, r2, WokenReceive);
    s := ResumeReceive(c, s, r2, a);
    assert At(c, s, 0, a, SleepSend(PROBE), r1, Running, r2, SleepReceive);
  }

  lemma ReceiverStrandsAtTwo(c: Config, s0: State, a: nat, r1: nat, r2: nat) returns (s: State)
    requires Trio(c, a, r1, r2) && a in c.senders && c.maxmsg == 2
    requires At(c, s0, 1, a, Running, r1, WokenReceive, r2, SleepReceive)
    ensures Reachable(c, s) && Stranded(c, s)
  {
    s := CallSend(c, s0, a, r2);
    assert At(c, s, 2, a, Running, r1, WokenReceive, r2, SleepReceive);
    s := CallSend(c, s, a, r2);
    assert At(c, s, 2, a, SleepSend(PROBE), r1, WokenReceive, r2, SleepReceive);
    s := ResumeReceive(c, s, r1, a);
    assert At(c, s, 1, a, WokenSend(PROBE), r1, Running, r2, SleepReceive);
    s := ResumeSend(c, s, a, r2);
    assert At(c, s, 2, a, Running, r1, Running, r2, SleepReceive);
  }

  /** Two senders fall asleep on a full queue, one receiver takes a message and wakes the first. */
  lemma OneOfTwoSendersWoken(c: Config, a1: nat, a2: nat, b: nat) returns (s: State)
    requires Trio(c, a1, a2, b) && a1 in c.senders && a2 in c.senders && b in c.receivers
    ensures At(c, s, c.maxmsg - 1, a1, WokenSend(PROBE), a2, SleepSend(PROBE), b, Running)
  {
    assert a1 in {a1, a2, b} && a2 in {a1, a2, b} && b in {a1, a2, b};
    s := Fill(c, a1, c.maxmsg);
    s := CallSend(c, s, a1, 0);
    s := CallSend(c, s, a2, a1);
    s := CallReceive(c, s, b, a1);
  }

  lemma SenderStrands(c: Config, a1: nat, a2: nat, b: nat) returns (s: State)
    requires Trio(c, a1, a2, b) && a1 in c.senders && a2 in c.senders && b in c.receivers
    ensures Reachable(c, s) && Stranded(c, s)
  {
    s := OneOfTwoSendersWoken(c, a1, a2, b);
    if c.maxmsg == 1 {
      s := SenderStrandsAtOne(c, s, a1, a2, b);
    } else if c.maxmsg == 2 {
      s := SenderStrandsAtTwo(c, s, a1, a2, b);
    } else {
      s := CallReceive(c, s, b, a2);
      assert At(c, s, c.maxmsg - 2, a1, WokenSend(PROBE), a2, SleepSend(PROBE), b, Running);
      s := ResumeSend(c, s, a1, a2);
      assert At(c, s, c.maxmsg - 1, a1, Running, a2, SleepSend(PROBE), b, Running);
    }
  }

  lemma SenderStrandsAtOne(c: Config, s0: State, a1: nat, a2: nat, b: nat) returns (s: State)
    requires Trio(c, a1, a2, b) && b in c.receivers && c.maxmsg == 1
    requires At(c, s0, 0, a1, WokenSend(PROBE), a2, SleepSend(PROBE), b, Running)
    ensures Reachable(c, s) && Stranded(c, s)
  {
    s := CallReceive(c, s0, b, a2);
    assert At(c, s, 0, a1, WokenSend(PROBE), a2, SleepSend(PROBE), b, SleepReceive);
    s := ResumeSend(c, s, a1, a2);
    assert At(c, s, 1, a1, Running, a2, WokenSend(PROBE), b, SleepReceive);
    s := ResumeSend(c, s, a2, b);
    assert At(c, s, 1, a1, Running, a2, SleepSend(PROBE), b, SleepReceive);
  }

  lemma SenderStrandsAtTwo(c: Config, s0: State, a1: nat, a2: nat, b: nat) returns (s: State)
    requires Trio(c, a1, a2, b) && b in c.receivers && c.maxmsg == 2
    requires At(c, s0, 1, a1, WokenSend(PROBE), a2, SleepSend(PROBE), b, Running)
    ensures Reachable(c, s) && Stranded(c, s)
  {
    s := CallReceive(c, s0, b, a2);
    assert At(c, s, 0, a1, WokenSend(PROBE), a2, SleepSend(PROBE), b, Running);
    s := CallReceive(c, s, b, a2);
    assert At(c, s, 0, a1, WokenSend(PROBE), a2, SleepSend(PROBE), b, SleepReceive);
    s := ResumeSend(c, s, a1, b);
    assert At(c, s, 1, a1, Running, a2, SleepSend(PROBE), b, WokenReceive);
    s := ResumeReceive(c, s, b, a2);
    assert At(c, s, 0, a1, Running, a2, SleepSend(PROBE), b, Running);
  }

  lemma ThirdMember<T>(all: set<T>, a: T, b: T) returns (x: T)
    requires |all| > 2
    ensures x in all && x != a && x != b
  {
    assert |{a, b}| <= 2;
    if all <= {a, b} { Subsets(all, {a, b}); }
    x :| x in all && x !in {a, b};
  }

  /** A sender and a receiver that are different threads, when three threads use the queue. */
  lemma DistinctPair(c: Config) returns (a: nat, b: nat)
    requires !AtMostTwoOrOneSided(c)
    ensures a in c.senders && b in c.receivers && a != b
  {
    a :| a in c.senders;
    b :| b in c.receivers;
    if a == b {
      var x := ThirdMember(c.senders + c.receivers, a, b);
      if x in c.senders { a := x; } else { b := x; }
    }
  }

  /** The exact condition under which no interleaving loses a wake-up. */
  lemma NeverStrandsIffAtMostTwo(c: Config)
    requires c.Valid()
    ensures NeverStrands(c) <==> AtMostTwoOrOneSided(c)
  {
    if AtMostTwoOrOneSided(c) {
      forall s | Reachable(c, s) ensures !Stranded(c, s) {
        if Stranded(c, s) {
          var t: nat :| t < |s.threads| &&
            ((s.threads[t].SleepReceive? && s.q.messages != []) || (s.threads[t].SleepSend? && |s.q.messages| < c.maxmsg));
          TwoThreadsNeverMiss(c, s, t, t);
        }
      }
    } else {
      var a, b := DistinctPair(c);
      var x := ThirdMember(c.senders + c.receivers, a, b);
      var s: State;
      if x in c.receivers {
        s := ReceiverStrands(c, a, b, x);
      } else {
        s := SenderStrands(c, a, x, b);
      }
      assert Reachable(c, s) && Stranded(c, s);
    }
  }

  // ----- notification

  /** The process that a sender's step sends its signal to. */
  function Told(s: State, step: Step): Option<nat>
    requires step.t < |s.threads| && (step.SendResume? ==> s.threads[step.t].WokenSend?)
  {
    if !step.Send? && !step.SendResume? then None
    else
      var m := if step.Send? then step.m else s.threads[step.t].m;
      match SendEffect(s.q, m, step.Send? && step.nonblock, step.SendResume?).1
      case Sent(_, notify) => notify
      case _ => None
  }

  /** A message goes into an empty queue while no receiver is blocked, and it is not so that the
   *  registered process is told and unregistered. */
  ghost predicate SilentSend(c: Config, s: State, step: Step) {
    && Enabled(c, s, step) && (step.Send? || step.SendResume?)
    && s.q.messages == [] && s.q.pid != 0 && s.q.nwait == 0
    && |Apply(c, s, step).sent| == |s.sent| + 1
    && !(Told(s, step) == Some(s.q.pid) && Apply(c, s, step).q.pid == 0)
  }

  ghost predicate NeverSilent(c: Config) {
    forall s, step | Reachable(c, s) :: !SilentSend(c, s, step)
  }

  /** No sender and receiver are different threads. */
  ghost predicate NoPair(c: Config) {
    forall a, b | a in c.senders && b in c.receivers :: a == b
  }

  /** A sender in its wait loop sees a full queue. */
  ghost predicate WaitsFull(c: Config, s: State) {
    s.q.sigevSignal && forall t: nat | t < |s.threads| && s.threads[t].Sending() :: |s.q.messages| == c.maxmsg
  }

  lemma WaitsFullStep(c: Config, s: State, step: Step)
    requires c.Valid() && NoPair(c) && Inv(c, s) && WaitsFull(c, s) && Enabled(c, s, step)
    ensures WaitsFull(c, Apply(c, s, step))
  {
    hide Insert, Accounts;
    var r := Apply(c, s, step);
    forall t: nat | t < |r.threads| && r.threads[t].Sending() ensures |r.q.messages| == c.maxmsg {
      assert t != step.t ==> s.threads[t].Sending();
    }
  }

  lemma {:induction false} WaitsFullRun(c: Config, s: State, steps: seq<Step>)
    requires c.Valid() && NoPair(c) && Inv(c, s) && WaitsFull(c, s) && Legal(c, s, steps)
    ensures WaitsFull(c, Exec(c, s, steps))
    decreases |steps|
  {
    hide Inv, WaitsFull, Enabled, Apply;
    if steps != [] {
      StepInv(c, s, steps[0]);
      WaitsFullStep(c, s, steps[0]);
      WaitsFullRun(c, Apply(c, s, steps[0]), steps[1..]);
    }
  }

  /** A reached state of one sender and one receiver, all others running. */
  ghost predicate Pair(c: Config, s: State, n: nat, nwait: nat, a: nat, pa: Phase, b: nat, pb: Phase) {
    && Reachable(c, s) && |s.q.messages| == n && s.q.nwait == nwait && s.q.pid == c.pid
    && |s.threads| == c.threads && a < c.threads && b < c.threads
    && s.threads[a] == pa && s.threads[b] == pb
    && forall t: nat | t < c.threads && t != a && t != b :: s.threads[t].Running?
  }

  lemma {:induction false} FillUp(c: Config, s0: State, a: nat, b: nat, n: nat) returns (s: State)
    requires c.Valid() && a in c.senders && a != b && 0 < n <= c.maxmsg
    requires Pair(c, s0, n, 1, a, Running, b, WokenReceive)
    ensures Pair(c, s, c.maxmsg, 1, a, Running, b, WokenReceive)
    decreases c.maxmsg - n
  {
    if n == c.maxmsg {
      s := s0;
    } else {
      s := CallSend(c, s0, a, 0);
      s := FillUp(c, s, a, b, n + 1);
    }
  }

  lemma {:induction false} TakeRest(c: Config, s0: State, a: nat, b: nat, n: nat) returns (s: State)
    requires c.Valid() && b in c.receivers && a != b && n < c.maxmsg
    requires Pair(c, s0, n, 0, a, WokenSend(PROBE), b, Running)
    ensures Pair(c, s, 0, 0, a, WokenSend(PROBE), b, Running)
    decreases n
  {
    if n == 0 {
      s := s0;
    } else {
      s := CallReceive(c, s0, b, 0);
      s := TakeRest(c, s, a, b, n - 1);
    }
  }

  lemma WakesInstead(c: Config, a: nat, b: nat) returns (s: State)
    requires c.Valid() && a in c.senders && b in c.receivers && a != b
    ensures Pair(c, s, 1, 1, a, Running, b, WokenReceive)
  {
    assert a in c.senders + c.receivers && b in c.senders + c.receivers;
    InitReachable(c);
    s := CallReceive(c, Init(c), b, 0);
    s := CallSend(c, s, a, b);
  }

  /** The receiver sleeps, so the first message notifies nobody; the sender fills the queue and
   *  sleeps; the receiver empties it; the sender goes on, past the test for a registered process. */
  lemma SenderSkipsTest(c: Config, a: nat, b: nat) returns (s: State)
    requires c.Valid() && a in c.senders && b in c.receivers && a != b && c.pid != 0
    ensures Reachable(c, s) && SilentSend(c, s, SendResume(a, 0))
  {
    s := WakesInstead(c, a, b);
    s := FillUp(c, s, a, b, 1);
    s := CallSend(c, s, a, 0);
    assert Pair(c, s, c.maxmsg, 1, a, SleepSend(PROBE), b, WokenReceive);
    s := ResumeReceive(c, s, b, a);
    assert Pair(c, s, c.maxmsg - 1, 0, a, WokenSend(PROBE), b, Running);
    s := TakeRest(c, s, a, b, c.maxmsg - 1);
    SizesFixed(c, s);
  }

  /** With a registered process, every message that goes into an empty queue while no receiver is
   *  blocked notifies it, if and only if no sender and receiver are different threads. */
  lemma NeverSilentIffNoPair(c: Config)
    requires c.Valid()
    ensures NeverSilent(c) <==> c.pid == 0 || NoPair(c)
  {
    if c.pid == 0 {
      forall s, step | Reachable(c, s) ensures !SilentSend(c, s, step) { NobodyRegistered(c, s); }
    } else if NoPair(c) {
      forall s, step | Reachable(c, s) ensures !SilentSend(c, s, step) {
        var steps :| Legal(c, Init(c), steps) && s == Exec(c, Init(c), steps);
        InitInv(c);
        WaitsFullRun(c, Init(c), steps);
      }
    } else {
      var a, b :| a in c.senders && b in c.receivers && a != b;
      var s := SenderSkipsTest(c, a, b);
    }
  }

  lemma NobodyRegistered(c: Config, s: State)
    requires c.pid == 0 && Reachable(c, s)
    ensures s.q.pid == 0
  {
    var steps :| Legal(c, Init(c), steps) && s == Exec(c, Init(c), steps);
    PidStays(c, Init(c), steps);
  }

  lemma {:induction false} PidStays(c: Config, s: State, steps: seq<Step>)
    requires s.q.pid == 0 && Legal(c, s, steps)
    ensures Exec(c, s, steps).q.pid == 0
    decreases |steps|
  {
    if steps != [] { PidStays(c, Apply(c, s, steps[0]), steps[1..]); }
  }
}
