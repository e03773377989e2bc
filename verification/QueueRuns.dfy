/** Runs of the blocking protocol on the bytes of one mapped file: any number of threads, each
 *  stretch of mq_send and mq_receive done by MessageQueue's methods. */
module QueueRuns {
  import opened Basics
  import opened Sums
  import opened QueueSpec
  import opened Arena
  import opened QueueLists
  import opened MessageQueue
  import opened QueueBlocking

  /** A sender that sleeps carries a message that has passed the test of its length. */
  ghost predicate Carried(c: Config, s: State) {
    && s.q.msgsize == c.msgsize
    && forall t: nat | t < |s.threads| && s.threads[t].Sending() ::
         |s.threads[t].m.data| <= c.msgsize && s.threads[t].m.prio <= UINT_MAX
  }

  ghost predicate PrioritiesFit(steps: seq<Step>) {
    forall k | 0 <= k < |steps| && steps[k].Send? :: steps[k].m.prio <= UINT_MAX
  }

  lemma CarriedStep(c: Config, s: State, step: Step)
    requires Carried(c, s) && Enabled(c, s, step) && (step.Send? ==> step.m.prio <= UINT_MAX)
    ensures Carried(c, Apply(c, s, step))
  {
    hide Insert;
    var r := Apply(c, s, step);
    forall t: nat | t < |r.threads| && r.threads[t].Sending()
      ensures |r.threads[t].m.data| <= c.msgsize && r.threads[t].m.prio <= UINT_MAX
    {
      assert t != step.t ==> s.threads[t].Sending() && r.threads[t].m == s.threads[t].m;
    }
  }

  /** mqh_nwait stays far from its limits, and counts a woken receiver. */
  lemma WaitersFit(c: Config, s: State, t: nat)
    requires Inv(c, s) && t < |s.threads|
    ensures 0 <= s.q.nwait <= c.threads && (s.threads[t].Receiving() ==> s.q.nwait > 0)
  {
    SumAtMost(s.threads, InReceiveWait, 1);
    SumNonNegative(s.threads, InReceiveWait);
    SumAtLeast(s.threads, t, InReceiveWait);
  }

  /** One stretch of mq_send by thread `t`. */
  method SendStretch(q: MqInfo, ghost s: State, threads: seq<Phase>, t: nat, m: Message, woken: bool, w: nat)
    returns (after: seq<Phase>)
    requires Valid(q.mqi_hdr[..]) && q.mqi_magic == MQI_MAGIC && QueueOf(q.mqi_hdr[..]) == s.q && threads == s.threads
    requires t < |threads| && m.prio <= UINT_MAX && (woken ==> |m.data| <= s.q.msgsize)
    modifies q.mqi_hdr
    ensures Valid(q.mqi_hdr[..]) && QueueOf(q.mqi_hdr[..]) == ApplySend(s, t, m, q.nonblock, woken, w).q
    ensures after == ApplySend(s, t, m, q.nonblock, woken, w).threads
    ensures ApplySend(s, t, m, q.nonblock, woken, w).received == s.received
  {
    hide Walk, Insert, HdrOf, Holds, SendAnswer, ReceiveAnswer;
    var r := q.Send(m.data, m.prio, woken);
    match r.value {
      case Sent(signal, _) => after := Signal(threads[t := Running], signal, w);
      case SendSleeps => after := threads[t := SleepSend(m)];
      case _ => after := threads;
    }
  }

  /** One stretch of mq_receive by thread `t`. */
  method ReceiveStretch(q: MqInfo, ghost s: State, threads: seq<Phase>, t: nat, maxlen: nat, woken: bool, w: nat)
    returns (after: seq<Phase>, message: seq<Message>)
    requires Valid(q.mqi_hdr[..]) && q.mqi_magic == MQI_MAGIC && QueueOf(q.mqi_hdr[..]) == s.q && threads == s.threads
    requires t < |threads| && s.q.nwait < LONG_MAX && (woken ==> s.q.nwait > 0)
    modifies q.mqi_hdr
    ensures Valid(q.mqi_hdr[..]) && QueueOf(q.mqi_hdr[..]) == ApplyReceive(s, t, maxlen, q.nonblock, woken, w).q
    ensures after == ApplyReceive(s, t, maxlen, q.nonblock, woken, w).threads
    ensures s.received + message == ApplyReceive(s, t, maxlen, q.nonblock, woken, w).received
  {
    hide Walk, Insert, HdrOf, Holds, SendAnswer, ReceiveAnswer;
    var r := q.Receive(maxlen, woken);
    message := [];
    match r.value {
      case Received(m, signal) =>
        after := Signal(threads[t := Running], signal, w);
        message := [m];
      case ReceiveSleeps => after := threads[t := SleepReceive];
      case _ => after := threads;
    }
  }

  /** A new file with process `pid` registered, mapped for blocking and for non-blocking use. */
  method OpenQueue(maxmsg: nat, msgsize: nat, pid: nat) returns (blocking: MqInfo, nonblocking: MqInfo)
    requires maxmsg > 0 && msgsize > 0 && FileSize(maxmsg, Stride(msgsize)) <= LONG_MAX && pid <= UINT_MAX
    ensures fresh(blocking) && fresh(nonblocking) && fresh(blocking.mqi_hdr)
    ensures blocking.mqi_hdr == nonblocking.mqi_hdr && !blocking.nonblock && nonblocking.nonblock
    ensures blocking.mqi_magic == nonblocking.mqi_magic == MQI_MAGIC && SIZEOF_MQ_HDR <= blocking.mqi_hdr.Length
    ensures Valid(blocking.mqi_hdr[..]) && QueueOf(blocking.mqi_hdr[..]) == Queue(maxmsg, msgsize, [], 0, pid, true)
  {
    hide Walk, HdrOf, Limit, Rep, FileSize, Stride, ViewOf;
    blocking := Create(Some(Attr(maxmsg, msgsize)), false);
    ghost var msgs, free :| Holds(blocking.mqi_hdr[..], msgs, free);
    LongLimit(pid);
    blocking.StoreAside(MQH_PID, pid, msgs, free);
    nonblocking := new MqInfo(blocking.mqi_hdr, true);
  }

  /** Any legal run, with blocking calls, sleepers and wake-ups, on the bytes: at its end the file
   *  holds exactly the queue of the protocol's state, the threads stand where they should, and
   *  the messages received are those. */
  method RunSteps(c: Config, steps: seq<Step>) returns (q: MqInfo, threads: seq<Phase>, received: seq<Message>)
    requires c.threads < LONG_MAX && c.pid <= UINT_MAX && PrioritiesFit(steps)
    requires c.maxmsg > 0 && c.msgsize > 0 && FileSize(c.maxmsg, Stride(c.msgsize)) <= LONG_MAX
    requires c.Valid() && Legal(c, Init(c), steps)
    ensures Valid(q.mqi_hdr[..]) && QueueOf(q.mqi_hdr[..]) == Exec(c, Init(c), steps).q
    ensures threads == Exec(c, Init(c), steps).threads && received == Exec(c, Init(c), steps).received
    ensures Accounts(Exec(c, Init(c), steps).sent, received, QueueOf(q.mqi_hdr[..]).messages)
    ensures QueueOf(q.mqi_hdr[..]).nwait == Sum(threads, InReceiveWait)
  {
    hide Insert, Walk, HdrOf, Holds, SendAnswer, ReceiveAnswer, Accounts, Sum, FileSize, Stride, Enabled, ApplySend, ApplyReceive;
    InitInv(c);
    ghost var s := Init(c);
    var nonblocking;
    q, nonblocking := OpenQueue(c.maxmsg, c.msgsize, c.pid);
    threads, received := seq(c.threads, _ => Running), [];
    var i := 0;
    while i < |steps|
      invariant 0 <= i <= |steps| && Legal(c, s, steps[i..]) && Exec(c, s, steps[i..]) == Exec(c, Init(c), steps)
      invariant Inv(c, s) && Carried(c, s) && threads == s.threads && received == s.received
      invariant fresh(q.mqi_hdr) && SIZEOF_MQ_HDR <= q.mqi_hdr.Length
      invariant q.mqi_magic == nonblocking.mqi_magic == MQI_MAGIC
      invariant Valid(q.mqi_hdr[..]) && QueueOf(q.mqi_hdr[..]) == s.q
    {
      var step := steps[i];
      assert steps[i..][0] == step && steps[i..][1..] == steps[i + 1..];
      EnabledMeans(c, s, step);
      WaitersFit(c, s, step.t);
      StepInv(c, s, step);
      CarriedStep(c, s, step);
      match step {
        case Send(t, m, nonblock, w) =>
          threads := SendStretch(if nonblock then nonblocking else q, s, threads, t, m, false, w);
        case SendResume(t, w) =>
          threads := SendStretch(q, s, threads, t, threads[t].m, true, w);
        case Receive(t, maxlen, nonblock, w) =>
          var message;
          threads, message := ReceiveStretch(if nonblock then nonblocking else q, s, threads, t, maxlen, false, w);
          received := received + message;
        case ReceiveResume(t, w) =>
          var message;
          threads, message := ReceiveStretch(q, s, threads, t, 0, true, w);
          received := received + message;
        case SpuriousWake(t) =>
          threads := threads[t := WakeUp(threads[t])];
      }
      s := Apply(c, s, step);
      i := i + 1;
    }
  }

  lemma EnabledMeans(c: Config, s: State, step: Step)
    requires Enabled(c, s, step)
    ensures step.t < |s.threads|
    ensures step.SendResume? ==> s.threads[step.t].WokenSend?
    ensures step.ReceiveResume? ==> s.threads[step.t].WokenReceive?
  {
  }
}
