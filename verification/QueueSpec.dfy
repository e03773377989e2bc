/** What a message queue is for its callers: a sequence of messages, the oldest of the highest
 *  priority first, as mq_send() and mq_receive() of POSIX.1 (IEEE Std 1003.1) have it.
 *
 *  `SendEffect` and `ReceiveEffect` say what one stretch of mq_send and mq_receive under the
 *  queue's mutex does.  The byte arena (module MessageQueue) is proved to refine them, and the
 *  blocking protocol (module QueueBlocking) runs them from any number of threads. */
module QueueSpec {
  import opened Basics

  datatype Message = Message(prio: nat, data: seq<Byte>)

  /** `pid`: the process registered for notification, 0 for none; `sigevSignal`: whether it asked
   *  for a signal. */
  datatype Queue = Queue(maxmsg: nat, msgsize: nat, messages: seq<Message>,
                         nwait: int, pid: nat, sigevSignal: bool)

  /** `signal`: the stretch signals the condition variable; `notify`: whom sigqueue tells. */
  datatype SendOutcome = Sent(signal: bool, notify: Option<nat>) | TooLong | SendAgain | SendSleeps

  datatype ReceiveOutcome = Received(message: Message, signal: bool) | BufferTooShort | ReceiveAgain | ReceiveSleeps

  /** Behind every message of at least its priority, before the first one of less. */
  function Insert(q: seq<Message>, m: Message): (r: seq<Message>)
    ensures |r| == |q| + 1
  {
    if q == [] || m.prio > q[0].prio then [m] + q else [q[0]] + Insert(q[1..], m)
  }

  /** One stretch of mq_send: from taking the mutex, or (`woken`) from the return of
   *  pthread_cond_wait, to the next wait or to the end. */
  function SendEffect(q: Queue, m: Message, nonblock: bool, woken: bool): (Queue, SendOutcome) {
    if !woken && |m.data| > q.msgsize then (q, TooLong)
    else if !woken && q.messages == [] then
      var registered := q.pid != 0 && q.nwait == 0;
      (q.(messages := Insert(q.messages, m), pid := if registered then 0 else q.pid),
       Sent(true, if registered && q.sigevSignal then Some(q.pid) else None))
    else if |q.messages| >= q.maxmsg then (q, if nonblock && !woken then SendAgain else SendSleeps)
    else (q.(messages := Insert(q.messages, m)), Sent(q.messages == [], None))
  }

  /** One stretch of mq_receive, cut in the same way. */
  function ReceiveEffect(q: Queue, maxlen: nat, nonblock: bool, woken: bool): (Queue, ReceiveOutcome) {
    if !woken && maxlen < q.msgsize then (q, BufferTooShort)
    else if q.messages == [] then
      if nonblock && !woken then (q, ReceiveAgain)
      else (q.(nwait := if woken then q.nwait else q.nwait + 1), ReceiveSleeps)
    else
      (q.(messages := q.messages[1..], nwait := if woken then q.nwait - 1 else q.nwait),
       Received(q.messages[0], |q.messages| == q.maxmsg))
  }

  /** When mq_send answers what, and what it leaves.  A sender that has slept has passed the tests
   *  in front of the wait. */
  ghost predicate SendAnswer(q: Queue, m: Message, nonblock: bool, woken: bool, r: Queue, answer: SendOutcome) {
    var full := |q.messages| >= q.maxmsg;
    var tell := !woken && q.messages == [] && q.pid != 0 && q.nwait == 0;
    && (answer.TooLong? <==> !woken && |m.data| > q.msgsize)
    && (answer.SendAgain? <==> !woken && |m.data| <= q.msgsize && full && nonblock)
    && (answer.SendSleeps? <==> (woken || (|m.data| <= q.msgsize && !nonblock)) && full)
    && (answer.Sent? <==> (woken || |m.data| <= q.msgsize) && !full)
    && (!answer.Sent? ==> r == q)
    && (answer.Sent? ==>
          && r == q.(messages := Insert(q.messages, m), pid := if tell then 0 else q.pid)
          && (answer.signal <==> q.messages == [])
          && answer.notify == if tell && q.sigevSignal then Some(q.pid) else None)
  }

  /** The same for mq_receive. */
  ghost predicate ReceiveAnswer(q: Queue, maxlen: nat, nonblock: bool, woken: bool, r: Queue, answer: ReceiveOutcome) {
    var fits := woken || maxlen >= q.msgsize;
    && (answer.BufferTooShort? <==> !fits)
    && (answer.ReceiveAgain? <==> fits && q.messages == [] && nonblock && !woken)
    && (answer.ReceiveSleeps? <==> fits && q.messages == [] && (woken || !nonblock))
    && (answer.Received? <==> fits && q.messages != [])
    && (answer.BufferTooShort? || answer.ReceiveAgain? ==> r == q)
    && (answer.ReceiveSleeps? ==> r == q.(nwait := q.nwait + if woken then 0 else 1))
    && (answer.Received? ==>
          && answer.message == q.messages[0] && (answer.signal <==> |q.messages| == q.maxmsg)
          && r == q.(messages := q.messages[1..], nwait := q.nwait - if woken then 1 else 0))
  }

  /** Each call answers in this way. */
  lemma Answers(q: Queue, m: Message, maxlen: nat, nonblock: bool, woken: bool)
    requires q.maxmsg > 0
    ensures SendAnswer(q, m, nonblock, woken, SendEffect(q, m, nonblock, woken).0, SendEffect(q, m, nonblock, woken).1)
    ensures var (r, answer) := ReceiveEffect(q, maxlen, nonblock, woken);
            ReceiveAnswer(q, maxlen, nonblock, woken, r, answer)
  {
  }

  // ----- order and conservation

  ghost predicate Sorted(q: seq<Message>) {
    forall i, j | 0 <= i < j < |q| :: q[i].prio >= q[j].prio
  }

  /** The messages of one priority, in their order. */
  function OfPriority(q: seq<Message>, p: nat): seq<Message> {
    if q == [] then [] else (if q[0].prio == p then [q[0]] else []) + OfPriority(q[1..], p)
  }

  /** Inserting where the source's walk stops: behind a prefix of at least the new priority, in
   *  front of a message of less. */
  lemma {:induction false} InsertAt(q: seq<Message>, m: Message, k: nat)
    requires k <= |q|
    requires forall i | 0 <= i < k :: q[i].prio >= m.prio
    requires k < |q| ==> q[k].prio < m.prio
    ensures Insert(q, m) == q[..k] + [m] + q[k..]
  {
    if k > 0 {
      InsertAt(q[1..], m, k - 1);
      assert q[..k] == [q[0]] + q[1..][..k - 1];
    }
  }

  lemma {:induction false} OfPriorityConcat(a: seq<Message>, b: seq<Message>, p: nat)
    ensures OfPriority(a + b, p) == OfPriority(a, p) + OfPriority(b, p)
  {
    if a == [] {
      assert a + b == b;
    } else {
      var all, rest, first := a + b, a[1..], if a[0].prio == p then [a[0]] else [];
      assert all[1..] == rest + b && all[0] == a[0];
      OfPriorityConcat(rest, b, p);
      assert OfPriority(all, p) == first + OfPriority(rest + b, p);
      assert OfPriority(a, p) == first + OfPriority(rest, p);
    }
  }

  lemma {:induction false} NoneOfPriority(q: seq<Message>, p: nat)
    requires forall i | 0 <= i < |q| :: q[i].prio != p
    ensures OfPriority(q, p) == []
  {
    if q != [] { NoneOfPriority(q[1..], p); }
  }

  lemma InsertSplits(q: seq<Message>, m: Message) returns (k: nat)
    requires Sorted(q)
    ensures k <= |q| && Insert(q, m) == q[..k] + [m] + q[k..]
    ensures forall i | 0 <= i < k :: q[i].prio >= m.prio
    ensures forall i | k <= i < |q| :: q[i].prio < m.prio
  {
    k := 0;
    while k < |q| && q[k].prio >= m.prio
      invariant 0 <= k <= |q|
      invariant forall i | 0 <= i < k :: q[i].prio >= m.prio
    { k := k + 1; }
    InsertAt(q, m, k);
  }

  /** On a sorted queue insertion keeps the order of priorities ... */
  lemma {:induction false} InsertSorted(q: seq<Message>, m: Message)
    requires Sorted(q)
    ensures Sorted(Insert(q, m))
  {
    var k := InsertSplits(q, m);
    var r := Insert(q, m);
    forall i, j | 0 <= i < j < |r| ensures r[i].prio >= r[j].prio {
      assert r[i] == if i < k then q[i] else if i == k then m else q[i - 1];
      assert r[j] == if j < k then q[j] else if j == k then m else q[j - 1];
    }
  }

  /** ... and within each priority it appends. */
  lemma {:induction false} InsertStable(q: seq<Message>, m: Message, p: nat)
    requires Sorted(q)
    ensures OfPriority(Insert(q, m), p) == OfPriority(q, p) + (if m.prio == p then [m] else [])
  {
    var k := InsertSplits(q, m);
    assert q == q[..k] + q[k..];
    OfPriorityConcat(q[..k], q[k..], p);
    OfPriorityConcat(q[..k] + [m], q[k..], p);
    OfPriorityConcat(q[..k], [m], p);
    if m.prio == p { NoneOfPriority(q[k..], p); }
  }

  /** `q` is what is left of `sent` after `received`: for every priority, the messages sent are
   *  those received followed by those still queued, in the same order. */
  ghost predicate Accounts(sent: seq<Message>, received: seq<Message>, q: seq<Message>) {
    && Sorted(q)
    && forall p: nat :: OfPriority(sent, p) == OfPriority(received, p) + OfPriority(q, p)
  }

  lemma {:induction false} OfOne(m: Message, p: nat)
    ensures OfPriority([m], p) == if m.prio == p then [m] else []
  {
  }

  lemma {:induction false} AccountsSend(sent: seq<Message>, received: seq<Message>, q: seq<Message>, m: Message)
    requires Accounts(sent, received, q)
    ensures Accounts(sent + [m], received, Insert(q, m))
  {
    hide OfPriority, Insert;
    InsertSorted(q, m);
    forall p: nat
      ensures OfPriority(sent + [m], p) == OfPriority(received, p) + OfPriority(Insert(q, m), p)
    {
      OfPriorityConcat(sent, [m], p);
      OfOne(m, p);
      InsertStable(q, m, p);
    }
  }

  lemma {:induction false} FirstMoves(received: seq<Message>, q: seq<Message>, p: nat)
    requires q != []
    ensures OfPriority(received + [q[0]], p) + OfPriority(q[1..], p) == OfPriority(received, p) + OfPriority(q, p)
  {
    hide OfPriority;
    OfPriorityConcat(received, [q[0]], p);
    OfPriorityConcat([q[0]], q[1..], p);
    assert [q[0]] + q[1..] == q;
  }

  lemma AccountsReceive(sent: seq<Message>, received: seq<Message>, q: seq<Message>)
    requires Accounts(sent, received, q) && q != []
    ensures Accounts(sent, received + [q[0]], q[1..])
  {
    hide OfPriority;
    forall p: nat
      ensures OfPriority(sent, p) == OfPriority(received + [q[0]], p) + OfPriority(q[1..], p)
    {
      FirstMoves(received, q, p);
    }
  }

  lemma {:induction false} CountedByPriority(q: seq<Message>, m: Message)
    ensures multiset(q)[m] == multiset(OfPriority(q, m.prio))[m]
  {
    if q != [] {
      assert q == [q[0]] + q[1..];
      CountedByPriority(q[1..], m);
    }
  }

  /** Nothing is lost, nothing invented. */
  lemma Conservation(sent: seq<Message>, received: seq<Message>, q: seq<Message>)
    requires Accounts(sent, received, q)
    ensures multiset(sent) == multiset(received) + multiset(q)
  {
    hide OfPriority;
    forall m: Message
      ensures multiset(sent)[m] == (multiset(received) + multiset(q))[m]
    {
      CountedByPriority(sent, m);
      CountedByPriority(received, m);
      CountedByPriority(q, m);
      assert OfPriority(sent, m.prio) == OfPriority(received, m.prio) + OfPriority(q, m.prio);
    }
  }

  // ----- runs of calls that do not block

  datatype Call = SendCall(data: seq<Byte>, prio: nat) | ReceiveCall(maxlen: nat)

  datatype Reply = SendReply(sent: SendOutcome) | ReceiveReply(received: ReceiveOutcome)

  /** One call with O_NONBLOCK. */
  function Serve(q: Queue, call: Call): (Queue, Reply) {
    match call
    case SendCall(data, prio) =>
      var (r, outcome) := SendEffect(q, Message(prio, data), true, false); (r, SendReply(outcome))
    case ReceiveCall(maxlen) =>
      var (r, outcome) := ReceiveEffect(q, maxlen, true, false); (r, ReceiveReply(outcome))
  }

  /** A sequence of such calls on a queue, and their replies. */
  function Replay(q: Queue, calls: seq<Call>): (r: (Queue, seq<Reply>))
    ensures |r.1| == |calls|
  {
    if calls == [] then (q, [])
    else
      var n := |calls| - 1;
      var before := Replay(q, calls[..n]);
      var (r, reply) := Serve(before.0, calls[n]);
      (r, before.1 + [reply])
  }

  function SentBy(call: Call, reply: Reply): seq<Message> {
    if call.SendCall? && reply.SendReply? && reply.sent.Sent? then [Message(call.prio, call.data)] else []
  }

  function ReceivedBy(reply: Reply): seq<Message> {
    if reply.ReceiveReply? && reply.received.Received? then [reply.received.message] else []
  }

  /** The messages that went in, and those that came out, in order. */
  function AllSent(calls: seq<Call>, replies: seq<Reply>): seq<Message>
    requires |calls| == |replies|
  {
    if calls == [] then []
    else
      var n := |calls| - 1;
      AllSent(calls[..n], replies[..n]) + SentBy(calls[n], replies[n])
  }

  function AllReceived(replies: seq<Reply>): seq<Message> {
    if replies == [] then []
    else
      var n := |replies| - 1;
      AllReceived(replies[..n]) + ReceivedBy(replies[n])
  }

  /** A call keeps the account of what went in and out, and the queue within its bounds. */
  lemma ServeAccounts(sent: seq<Message>, received: seq<Message>, q: Queue, call: Call)
    requires Accounts(sent, received, q.messages) && |q.messages| <= q.maxmsg && q.maxmsg > 0
    ensures var (r, reply) := Serve(q, call);
            && Accounts(sent + SentBy(call, reply), received + ReceivedBy(reply), r.messages)
            && |r.messages| <= r.maxmsg == q.maxmsg && r.msgsize == q.msgsize && r.nwait == q.nwait
  {
    hide Insert, OfPriority;
    var (r, reply) := Serve(q, call);
    assert sent + [] == sent && received + [] == received;
    if SentBy(call, reply) != [] {
      InsertLength(q.messages, Message(call.prio, call.data));
      AccountsSend(sent, received, q.messages, Message(call.prio, call.data));
    }
    if ReceivedBy(reply) != [] { AccountsReceive(sent, received, q.messages); }
  }

  lemma {:induction false} InsertLength(q: seq<Message>, m: Message)
    ensures |Insert(q, m)| == |q| + 1
  {
  }

  /** Over any sequence of calls on an empty queue: for every priority, the messages that went in
   *  are those that came out followed by those still queued, in the order of sending; the queue
   *  stays sorted and never holds more than it may. */
  lemma {:induction false} ReplayAccounts(q: Queue, calls: seq<Call>)
    requires q.messages == [] && q.maxmsg > 0
    ensures var (r, replies) := Replay(q, calls);
            && Accounts(AllSent(calls, replies), AllReceived(replies), r.messages)
            && |r.messages| <= r.maxmsg == q.maxmsg && r.msgsize == q.msgsize && r.nwait == q.nwait
  {
    hide Serve, Accounts, SentBy, ReceivedBy;
    if calls == [] {
      NothingAccounts();
    } else {
      var n := |calls| - 1;
      var first := calls[..n];
      ReplayAccounts(q, first);
      var before := Replay(q, first);
      var (r, reply) := Serve(before.0, calls[n]);
      var replies := before.1 + [reply];
      assert replies[..n] == before.1;
      ServeAccounts(AllSent(first, before.1), AllReceived(before.1), before.0, calls[n]);
    }
  }

  lemma NothingAccounts()
    ensures Accounts([], [], [])
  {
  }
}
