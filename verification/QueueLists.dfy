/** The mapped file as records, and the two singly linked lists of byte offsets that thread its
 *  slots: messages in descending priority from mqh_head, unused slots from mqh_free. */
module QueueLists {
  import opened Basics
  import opened QueueSpec
  import opened Arena

  datatype Header = Header(maxmsg: nat, msgsize: nat, curmsgs: nat, head: nat, free: nat,
                           nwait: nat, pid: nat, notify: nat)

  /** `area`: the slot's payload bytes, of which a message uses the first `len`. */
  datatype Slot = Slot(next: nat, len: nat, prio: nat, area: Memory)

  datatype View = View(hdr: Header, slots: seq<Slot>)

  // ----- from bytes to records

  function Field(b: Memory, a: nat, n: nat): nat
    requires a + n <= |b|
  {
    Decode(b[a..a + n])
  }

  function HeaderOf(h: Memory): Header
    requires |h| == SIZEOF_MQ_HDR
  {
    Header(Field(h, MQ_MAXMSG, 8), Field(h, MQ_MSGSIZE, 8), Field(h, MQ_CURMSGS, 8), Field(h, MQH_HEAD, 8),
           Field(h, MQH_FREE, 8), Field(h, MQH_NWAIT, 8), Field(h, MQH_PID, 4), Field(h, MQH_SIGEV_NOTIFY, 4))
  }

  function SlotOf(b: Memory): Slot
    requires SIZEOF_MSG_HDR <= |b|
  {
    Slot(Field(b, 0, 8), Field(b, MSG_LEN, 8), Field(b, MSG_PRIO, 4), b[SIZEOF_MSG_HDR..])
  }

  function ViewOf(m: Memory, n: nat, stride: nat): (v: View)
    requires |m| == FileSize(n, stride) && SIZEOF_MSG_HDR <= stride
    ensures |v.slots| == n && v.hdr == HeaderOf(HeaderBytes(m))
    ensures forall k: nat {:trigger v.slots[k]} | k < n :: v.slots[k] == SlotOf(SlotBytes(m, n, stride)[k])
  {
    View(HeaderOf(HeaderBytes(m)), seq(n, k requires 0 <= k < n => SlotOf(SlotBytes(m, n, stride)[k])))
  }

  lemma FieldKept(b: Memory, a: nat, x: Memory, c: nat, n: nat)
    requires a + |x| <= |b| && c + n <= |b| && (c + n <= a || a + |x| <= c)
    ensures Field(Patch(b, a, x), c, n) == Field(b, c, n)
  {
    PatchElsewhere(b, a, x, c, n);
  }

  lemma {:induction false} FieldStored(b: Memory, a: nat, v: nat, n: nat)
    requires a + n <= |b| && v < Limit(n)
    ensures Field(Patch(b, a, Encode(v, n)), a, n) == v
  {
    EncodeDecode(v, n);
  }

  /** The header fields that are stored, by offset. */
  ghost predicate Stored(a: nat) {
    a in {MQ_MAXMSG, MQ_MSGSIZE, MQ_CURMSGS, MQH_HEAD, MQH_FREE, MQH_NWAIT, MQH_PID}
  }

  function Width(a: nat): nat { if a == MQH_PID then 4 else 8 }

  ghost function With(h: Header, a: nat, v: nat): Header
    requires Stored(a)
  {
    if a == MQ_MAXMSG then h.(maxmsg := v)
    else if a == MQ_MSGSIZE then h.(msgsize := v)
    else if a == MQ_CURMSGS then h.(curmsgs := v)
    else if a == MQH_HEAD then h.(head := v)
    else if a == MQH_FREE then h.(free := v)
    else if a == MQH_NWAIT then h.(nwait := v)
    else h.(pid := v)
  }

  lemma {:induction false} FieldAfter(h: Memory, a: nat, n: nat, v: nat, c: nat, k: nat)
    requires a + n <= |h| && c + k <= |h| && v < Limit(n)
    requires c + k <= a || a + n <= c || (a == c && n == k)
    ensures Field(Patch(h, a, Encode(v, n)), c, k) == if a == c && n == k && 0 < n then v else Field(h, c, k)
  {
    if a == c && n == k && 0 < n { FieldStored(h, a, v, n); } else { FieldKept(h, a, Encode(v, n), c, k); }
  }

  lemma {:induction false} HeaderFieldStored(h: Memory, a: nat, v: nat)
    requires |h| == SIZEOF_MQ_HDR && Stored(a) && v < Limit(Width(a))
    ensures HeaderOf(Patch(h, a, Encode(v, Width(a)))) == With(HeaderOf(h), a, v)
  {
    FieldAfter(h, a, Width(a), v, MQ_MAXMSG, 8);
    FieldAfter(h, a, Width(a), v, MQ_MSGSIZE, 8);
    FieldAfter(h, a, Width(a), v, MQ_CURMSGS, 8);
    FieldAfter(h, a, Width(a), v, MQH_HEAD, 8);
    FieldAfter(h, a, Width(a), v, MQH_FREE, 8);
    FieldAfter(h, a, Width(a), v, MQH_NWAIT, 8);
    FieldAfter(h, a, Width(a), v, MQH_PID, 4);
    FieldAfter(h, a, Width(a), v, MQH_SIGEV_NOTIFY, 4);
  }

  /** What a store at offset `f` of a slot does to the slot's fields. */
  ghost function SlotWith(s: Slot, f: nat, v: nat): Slot
    requires f in {0, MSG_LEN, MSG_PRIO}
  {
    if f == 0 then s.(next := v) else if f == MSG_LEN then s.(len := v) else s.(prio := v)
  }

  function SlotWidth(f: nat): nat { if f == MSG_PRIO then 4 else 8 }

  lemma {:induction false} SlotFieldStored(b: Memory, f: nat, v: nat)
    requires SIZEOF_MSG_HDR <= |b| && f in {0, MSG_LEN, MSG_PRIO} && v < Limit(SlotWidth(f))
    ensures SlotOf(Patch(b, f, Encode(v, SlotWidth(f)))) == SlotWith(SlotOf(b), f, v)
  {
    var n := SlotWidth(f);
    FieldAfter(b, f, n, v, 0, 8);
    FieldAfter(b, f, n, v, MSG_LEN, 8);
    FieldAfter(b, f, n, v, MSG_PRIO, 4);
    PatchElsewhere(b, f, Encode(v, n), SIZEOF_MSG_HDR, |b| - SIZEOF_MSG_HDR);
  }

  lemma PayloadStored(b: Memory, data: Memory)
    requires SIZEOF_MSG_HDR + |data| <= |b|
    ensures SlotOf(Patch(b, SIZEOF_MSG_HDR, data)) == SlotOf(b).(area := Patch(b[SIZEOF_MSG_HDR..], 0, data))
  {
    FieldKept(b, SIZEOF_MSG_HDR, data, 0, 8);
    FieldKept(b, SIZEOF_MSG_HDR, data, MSG_LEN, 8);
    FieldKept(b, SIZEOF_MSG_HDR, data, MSG_PRIO, 4);
    PatchWithin(b, SIZEOF_MSG_HDR, |b| - SIZEOF_MSG_HDR, SIZEOF_MSG_HDR, data);
  }

  // ----- the same for the whole file

  lemma {:induction false} StoreInHeader(m: Memory, n: nat, stride: nat, a: nat, v: nat)
    requires |m| == FileSize(n, stride) && SIZEOF_MSG_HDR <= stride && Stored(a) && v < Limit(Width(a))
    ensures ViewOf(Patch(m, a, Encode(v, Width(a))), n, stride)
         == View(With(ViewOf(m, n, stride).hdr, a, v), ViewOf(m, n, stride).slots)
  {
    HeaderStore(m, n, stride, a, Encode(v, Width(a)));
    HeaderFieldStored(HeaderBytes(m), a, v);
  }

  lemma {:induction false} SlotChanged(m: Memory, n: nat, stride: nat, k: nat, f: nat, a: nat, b: Memory)
    requires |m| == FileSize(n, stride) && SIZEOF_MSG_HDR <= stride && k < n && f + |b| <= stride && a == At(k, stride) + f
    ensures a + |b| <= |m|
    ensures var v, w := ViewOf(m, n, stride), ViewOf(Patch(m, a, b), n, stride);
            w == View(v.hdr, v.slots[k := SlotOf(Patch(SlotBytes(m, n, stride)[k], f, b))])
  {
    SlotStore(m, n, stride, k, f, a, b);
  }

  lemma {:induction false} StoreInSlot(m: Memory, n: nat, stride: nat, k: nat, f: nat, a: nat, v: nat)
    requires |m| == FileSize(n, stride) && SIZEOF_MSG_HDR <= stride && k < n && a == At(k, stride) + f
    requires f in {0, MSG_LEN, MSG_PRIO} && v < Limit(SlotWidth(f))
    ensures a + SlotWidth(f) <= |m|
    ensures var o := ViewOf(m, n, stride);
            ViewOf(Patch(m, a, Encode(v, SlotWidth(f))), n, stride) == View(o.hdr, o.slots[k := SlotWith(o.slots[k], f, v)])
  {
    SlotChanged(m, n, stride, k, f, a, Encode(v, SlotWidth(f)));
    SlotFieldStored(SlotBytes(m, n, stride)[k], f, v);
  }

  /** Copying a message that fits changes the payload of its own slot and nothing else. */
  lemma {:induction false} StorePayload(m: Memory, n: nat, stride: nat, k: nat, a: nat, data: Memory)
    requires |m| == FileSize(n, stride) && SIZEOF_MSG_HDR + |data| <= stride && k < n && a == At(k, stride) + SIZEOF_MSG_HDR
    ensures a + |data| <= |m|
    ensures var o := ViewOf(m, n, stride);
            && |o.slots[k].area| == stride - SIZEOF_MSG_HDR
            && ViewOf(Patch(m, a, data), n, stride)
            == View(o.hdr, o.slots[k := o.slots[k].(area := Patch(o.slots[k].area, 0, data))])
  {
    SlotChanged(m, n, stride, k, SIZEOF_MSG_HDR, a, data);
    PayloadStored(SlotBytes(m, n, stride)[k], data);
  }

  lemma SubRange(m: Memory, a: nat, len: nat, f: nat, n: nat)
    requires a + len <= |m| && f + n <= len
    ensures m[a..a + len][f..f + n] == m[a + f..a + f + n]
  {
    var x, y := m[a..a + len][f..f + n], m[a + f..a + f + n];
    assert |x| == |y| == n;
    forall i | 0 <= i < n ensures x[i] == y[i] { assert x[i] == m[a..a + len][f + i]; }
  }

  lemma FieldInSlot(m: Memory, a: nat, len: nat, f: nat, n: nat)
    requires a + len <= |m| && f + n <= len
    ensures Field(m[a..a + len], f, n) == Field(m, a + f, n)
  {
    SubRange(m, a, len, f, n);
  }

  /** Reading a slot's fields at their addresses. */
  lemma {:induction false} SlotRead(m: Memory, n: nat, stride: nat, k: nat, a: nat)
    requires |m| == FileSize(n, stride) && SIZEOF_MSG_HDR <= stride && k < n && a == At(k, stride)
    ensures a + stride <= |m|
    ensures var s := ViewOf(m, n, stride).slots[k];
            && s.next == Field(m, a, 8) && s.len == Field(m, a + MSG_LEN, 8)
            && s.prio == Field(m, a + MSG_PRIO, 4) && s.area == m[a + SIZEOF_MSG_HDR..a + stride]
  {
    SlotBefore(k, n, stride);
    var b := m[a..a + stride];
    assert ViewOf(m, n, stride).slots[k] == SlotOf(b);
    FieldInSlot(m, a, stride, 0, 8);
    FieldInSlot(m, a, stride, MSG_LEN, 8);
    FieldInSlot(m, a, stride, MSG_PRIO, 4);
    SubRange(m, a, stride, SIZEOF_MSG_HDR, stride - SIZEOF_MSG_HDR);
    assert b[SIZEOF_MSG_HDR..] == b[SIZEOF_MSG_HDR..SIZEOF_MSG_HDR + (stride - SIZEOF_MSG_HDR)];
  }

  // ----- the lists

  /** The link to element `i` of a list of slot numbers: an offset, or 0 behind the end. */
  function Link(l: seq<nat>, i: nat, stride: nat): nat {
    if i < |l| then At(l[i], stride) else 0
  }

  predicate InRange(l: seq<nat>, n: nat) {
    forall i: nat | i < |l| :: l[i] < n
  }

  /** Element `i` of the list links to the next one. */
  ghost predicate LinksOn(slots: seq<Slot>, stride: nat, l: seq<nat>, i: nat)
    requires InRange(l, |slots|) && i < |l|
  {
    slots[l[i]].next == Link(l, i + 1, stride)
  }

  /** Following msg_next from `first` visits exactly the slots `l` and ends. */
  ghost predicate Linked(slots: seq<Slot>, stride: nat, first: nat, l: seq<nat>) {
    && InRange(l, |slots|)
    && first == Link(l, 0, stride)
    && forall i: nat {:trigger LinksOn(slots, stride, l, i)} | i < |l| :: LinksOn(slots, stride, l, i)
  }

  /** Every slot number below `n`, once. */
  ghost function AllSlots(n: nat): multiset<nat> {
    if n == 0 then multiset{} else AllSlots(n - 1) + multiset{n - 1}
  }

  /** `msgs` and `free` are the slots on the two lists: acyclic, disjoint, and together every slot
   *  exactly once. */
  ghost predicate Rep(v: View, stride: nat, msgs: seq<nat>, free: seq<nat>) {
    && stride == Stride(v.hdr.msgsize) && v.hdr.maxmsg == |v.slots|
    && Linked(v.slots, stride, v.hdr.head, msgs)
    && Linked(v.slots, stride, v.hdr.free, free)
    && Partition(msgs, free, |v.slots|)
    && v.hdr.curmsgs == |msgs|
    && (forall k: nat | k < |v.slots| :: |v.slots[k].area| == stride - SIZEOF_MSG_HDR)
    && (forall i: nat | i < |msgs| :: v.slots[msgs[i]].len <= v.hdr.msgsize)
  }

  lemma {:induction false} AllSlotsOnce(n: nat, x: nat)
    ensures |AllSlots(n)| == n && AllSlots(n)[x] == if x < n then 1 else 0
  {
    if n > 0 { AllSlotsOnce(n - 1, x); }
  }

  lemma {:induction false} Occurs<T>(s: seq<T>, i: nat, j: nat)
    requires i < j < |s| && s[i] == s[j]
    ensures multiset(s)[s[i]] >= 2
  {
    assert s == s[..j] + s[j..];
    assert s[i] in s[..j] && s[i] in s[j..];
  }

  ghost predicate Partition(msgs: seq<nat>, free: seq<nat>, n: nat) {
    multiset(msgs) + multiset(free) == AllSlots(n)
  }

  /** What "each slot exactly once" means: the counts add up, no list meets a slot twice, and the
   *  lists share none. */
  lemma CountsAddUp(msgs: seq<nat>, free: seq<nat>, n: nat)
    requires Partition(msgs, free, n)
    ensures |msgs| + |free| == n
  {
    AllSlotsOnce(n, 0);
    assert |multiset(msgs) + multiset(free)| == |msgs| + |free|;
  }

  lemma MetOnce(msgs: seq<nat>, free: seq<nat>, n: nat, i: nat, j: nat)
    requires Partition(msgs, free, n)
    ensures i < |msgs| && j < |msgs| && i != j ==> msgs[i] != msgs[j]
    ensures i < |free| && j < |free| && i != j ==> free[i] != free[j]
  {
    if i < |msgs| && j < |msgs| && i != j && msgs[i] == msgs[j] {
      AllSlotsOnce(n, msgs[i]);
      Occurs(msgs, if i < j then i else j, if i < j then j else i);
    }
    if i < |free| && j < |free| && i != j && free[i] == free[j] {
      AllSlotsOnce(n, free[i]);
      Occurs(free, if i < j then i else j, if i < j then j else i);
    }
  }

  lemma NotShared(msgs: seq<nat>, free: seq<nat>, n: nat, i: nat, j: nat)
    requires Partition(msgs, free, n) && i < |msgs| && j < |free|
    ensures msgs[i] != free[j]
  {
    AllSlotsOnce(n, msgs[i]);
    assert multiset(msgs)[msgs[i]] >= 1 && multiset(free)[free[j]] >= 1;
  }

  /** A file's slots are all accounted for: slot `k` is on exactly one of the lists. */
  lemma EverySlotListed(v: View, stride: nat, msgs: seq<nat>, free: seq<nat>, k: nat)
    requires Rep(v, stride, msgs, free) && k < v.hdr.maxmsg
    ensures k in msgs <==> k !in free
    ensures |free| == v.hdr.maxmsg - v.hdr.curmsgs
  {
    CountsAddUp(msgs, free, |v.slots|);
    AllSlotsOnce(|v.slots|, k);
    assert k in multiset(msgs) <==> k in msgs;
    assert k in multiset(free) <==> k in free;
  }

  function MessageAt(s: Slot): Message {
    Message(s.prio, if s.len <= |s.area| then s.area[..s.len] else [])
  }

  ghost function MessagesOf(slots: seq<Slot>, l: seq<nat>): (q: seq<Message>)
    requires InRange(l, |slots|)
    ensures |q| == |l|
  {
    seq(|l|, i requires 0 <= i < |l| => MessageAt(slots[l[i]]))
  }

  // ----- walking the list in the bytes

  /** The messages met when following msg_next from offset `a`, at most `fuel` of them. */
  function Walk(m: Memory, a: nat, fuel: nat): seq<Message>
    decreases fuel
  {
    if fuel == 0 || a == 0 || a + SIZEOF_MSG_HDR > |m| || a + SIZEOF_MSG_HDR + Field(m, a + MSG_LEN, 8) > |m| then []
    else
      var data := a + SIZEOF_MSG_HDR;
      [Message(Field(m, a + MSG_PRIO, 4), m[data..data + Field(m, a + MSG_LEN, 8)])] + Walk(m, Field(m, a, 8), fuel - 1)
  }

  lemma {:induction false} WalkOn(m: Memory, a: nat, e: nat, fuel: nat, f: nat, x: Message, next: nat, rest: seq<Message>)
    requires 0 < a && a + SIZEOF_MSG_HDR <= e <= |m| && fuel == f + 1
    requires e == a + SIZEOF_MSG_HDR + Field(m, a + MSG_LEN, 8)
    requires x == Message(Field(m, a + MSG_PRIO, 4), m[a + SIZEOF_MSG_HDR..e])
    requires next == Field(m, a, 8) && rest == Walk(m, next, f)
    ensures Walk(m, a, fuel) == [x] + rest
  {
  }

  /** One step of the walk, at a slot whose length is in range. */
  lemma {:induction false} WalkStep(m: Memory, n: nat, stride: nat, k: nat, a: nat, fuel: nat, f: nat, next: nat, x: Message, rest: seq<Message>)
    requires |m| == FileSize(n, stride) && SIZEOF_MSG_HDR <= stride && k < n && a == At(k, stride) && fuel == f + 1
    requires var s := ViewOf(m, n, stride).slots[k]; s.len <= |s.area| && next == s.next && x == MessageAt(s)
    requires rest == Walk(m, next, f)
    ensures Walk(m, a, fuel) == [x] + rest
  {
    SlotRead(m, n, stride, k, a);
    var s := ViewOf(m, n, stride).slots[k];
    var d := a + SIZEOF_MSG_HDR;
    var e := d + s.len;
    SubRange(m, d, stride - SIZEOF_MSG_HDR, 0, s.len);
    assert x.data == m[d..e];
    WalkOn(m, a, e, fuel, f, x, next, rest);
  }

  lemma TailSplit<T>(q: seq<T>, i: nat)
    requires i < |q|
    ensures q[i..] == [q[i]] + q[i + 1..]
  {
  }

  lemma {:induction false} WalkEnds(m: Memory, fuel: nat)
    ensures Walk(m, 0, fuel) == []
  {
  }

  lemma {:induction false} WalkFrom(m: Memory, n: nat, stride: nat, slots: seq<Slot>, first: nat, l: seq<nat>,
                                    q: seq<Message>, i: nat, a: nat, fuel: nat)
    requires |m| == FileSize(n, stride) && SIZEOF_MSG_HDR <= stride && slots == ViewOf(m, n, stride).slots
    requires Linked(slots, stride, first, l) && |q| == |l|
    requires forall k: nat | k < |l| :: slots[l[k]].len <= |slots[l[k]].area| && q[k] == MessageAt(slots[l[k]])
    requires i <= |l| && |l| - i <= fuel && a == Link(l, i, stride)
    ensures Walk(m, a, fuel) == q[i..]
    decreases fuel
  {
    hide Walk, Decode, At, MessageAt;
    if i < |l| {
      assert LinksOn(slots, stride, l, i);
      var k, x, next, rest, f, j := l[i], q[i], slots[l[i]].next, q[i + 1..], fuel - 1, i + 1;
      WalkFrom(m, n, stride, slots, first, l, q, j, next, f);
      assert rest == Walk(m, next, f);
      WalkStep(m, n, stride, k, a, fuel, f, next, x, rest);
      TailSplit(q, i);
    } else {
      WalkEnds(m, fuel);
      assert q[i..] == [];
    }
  }

  /** Walking the offset list from mqh_head in the bytes yields the messages of the list. */
  lemma {:induction false} WalkIsMessages(m: Memory, n: nat, stride: nat, msgs: seq<nat>, free: seq<nat>)
    requires |m| == FileSize(n, stride) && SIZEOF_MSG_HDR <= stride
    requires Rep(ViewOf(m, n, stride), stride, msgs, free)
    ensures Walk(m, ViewOf(m, n, stride).hdr.head, n) == MessagesOf(ViewOf(m, n, stride).slots, msgs)
  {
    var v := ViewOf(m, n, stride);
    MsgSizeIsLeastMultiple(v.hdr.msgsize, 0);
    CountsAddUp(msgs, free, n);
    WalkFrom(m, n, stride, v.slots, v.hdr.head, msgs, MessagesOf(v.slots, msgs), 0, v.hdr.head, n);
  }

  // ----- what a completed send and a completed receive do to the lists

  /** The new message's slot, taken from the free list and filled. */
  ghost function Filled(s: Slot, next: nat, m: Message): Slot
    requires |m.data| <= |s.area|
  {
    Slot(next, |m.data|, m.prio, Patch(s.area, 0, m.data))
  }

  /** The records after the first free slot was linked in at position `i`. */
  ghost function AfterSend(v: View, stride: nat, msgs: seq<nat>, f: nat, i: nat, m: Message): View
    requires InRange(msgs, |v.slots|) && f < |v.slots| && i <= |msgs| && |m.data| <= |v.slots[f].area|
  {
    var slots := v.slots[f := Filled(v.slots[f], Link(msgs, i, stride), m)];
    var hdr := v.hdr.(free := v.slots[f].next, curmsgs := v.hdr.curmsgs + 1);
    if i == 0 then View(hdr.(head := At(f, stride)), slots)
    else View(hdr, slots[msgs[i - 1] := slots[msgs[i - 1]].(next := At(f, stride))])
  }

  ghost function Inserted<T>(l: seq<T>, i: nat, x: T): seq<T>
    requires i <= |l|
  {
    l[..i] + [x] + l[i..]
  }

  lemma SendPartition(msgs: seq<nat>, free: seq<nat>, n: nat, i: nat)
    requires Partition(msgs, free, n) && free != [] && i <= |msgs|
    ensures Partition(Inserted(msgs, i, free[0]), free[1..], n)
  {
    assert msgs == msgs[..i] + msgs[i..] && free == [free[0]] + free[1..];
  }

  lemma ReceivePartition(msgs: seq<nat>, free: seq<nat>, n: nat)
    requires Partition(msgs, free, n) && msgs != []
    ensures Partition(msgs[1..], [msgs[0]] + free, n)
  {
    assert msgs == [msgs[0]] + msgs[1..];
  }

  lemma SentMessagesLinked(v: View, stride: nat, msgs: seq<nat>, free: seq<nat>, i: nat, m: Message)
    requires Rep(v, stride, msgs, free) && free != [] && i <= |msgs| && |m.data| <= |v.slots[free[0]].area|
    ensures var r := AfterSend(v, stride, msgs, free[0], i, m);
            Linked(r.slots, stride, r.hdr.head, Inserted(msgs, i, free[0]))
  {
    hide At, Patch, Decode, Partition;
    var n, f := |v.slots|, free[0];
    var r := AfterSend(v, stride, msgs, f, i, m);
    var l := Inserted(msgs, i, f);
    assert forall j: nat | j < |l| :: l[j] == if j < i then msgs[j] else if j == i then f else msgs[j - 1];
    forall j: nat | j < |l| ensures LinksOn(r.slots, stride, l, j) {
      if j < i {
        NotShared(msgs, free, n, j, 0);
        assert LinksOn(v.slots, stride, msgs, j);
        MetOnce(msgs, free, n, j, i - 1);
      } else if j > i {
        NotShared(msgs, free, n, j - 1, 0);
        assert LinksOn(v.slots, stride, msgs, j - 1);
        if i > 0 { MetOnce(msgs, free, n, j - 1, i - 1); }
      } else if i > 0 {
        NotShared(msgs, free, n, i - 1, 0);
      }
    }
  }

  lemma SentFreeLinked(v: View, stride: nat, msgs: seq<nat>, free: seq<nat>, i: nat, m: Message)
    requires Rep(v, stride, msgs, free) && free != [] && i <= |msgs| && |m.data| <= |v.slots[free[0]].area|
    ensures var r := AfterSend(v, stride, msgs, free[0], i, m);
            Linked(r.slots, stride, r.hdr.free, free[1..])
  {
    var n, f := |v.slots|, free[0];
    var r := AfterSend(v, stride, msgs, f, i, m);
    var l := free[1..];
    assert LinksOn(v.slots, stride, free, 0);
    forall j: nat | j < |l| ensures LinksOn(r.slots, stride, l, j) {
      assert LinksOn(v.slots, stride, free, j + 1);
      MetOnce(msgs, free, n, 0, j + 1);
      if i > 0 { NotShared(msgs, free, n, i - 1, j + 1); }
    }
  }

  /** The slots of the other messages keep what they hold. */
  lemma SentOthersKept(v: View, stride: nat, msgs: seq<nat>, free: seq<nat>, i: nat, m: Message, k: nat)
    requires Rep(v, stride, msgs, free) && free != [] && i <= |msgs| && k < |v.slots|
    requires |m.data| <= |v.slots[free[0]].area|
    ensures var s := AfterSend(v, stride, msgs, free[0], i, m).slots[k];
            && |s.area| == |v.slots[k].area|
            && (k != free[0] ==> s.len == v.slots[k].len && s.prio == v.slots[k].prio && s.area == v.slots[k].area)
            && (k == free[0] ==> s.len == |m.data| && MessageAt(s) == m)
  {
    if i > 0 { NotShared(msgs, free, |v.slots|, i - 1, 0); }
  }

  lemma SentMessages(v: View, stride: nat, msgs: seq<nat>, free: seq<nat>, i: nat, m: Message, j: nat)
    requires Rep(v, stride, msgs, free) && free != [] && i <= |msgs| && j <= |msgs|
    requires |m.data| <= |v.slots[free[0]].area|
    ensures var l, r := Inserted(msgs, i, free[0]), AfterSend(v, stride, msgs, free[0], i, m);
            && r.slots[l[j]].len <= (if j == i then |m.data| else v.slots[l[j]].len)
            && MessageAt(r.slots[l[j]]) == Inserted(MessagesOf(v.slots, msgs), i, m)[j]
            && (j != i ==> l[j] in msgs)
  {
    var l := Inserted(msgs, i, free[0]);
    assert l[j] == if j < i then msgs[j] else if j == i then free[0] else msgs[j - 1];
    if j != i { NotShared(msgs, free, |v.slots|, if j < i then j else j - 1, 0); }
    SentOthersKept(v, stride, msgs, free, i, m, l[j]);
  }

  /** The lists stay well-formed, and the queue gains `m` at position `i`. */
  lemma SendKeepsRep(v: View, stride: nat, msgs: seq<nat>, free: seq<nat>, i: nat, m: Message)
    requires Rep(v, stride, msgs, free) && free != [] && i <= |msgs| && |m.data| <= v.hdr.msgsize
    requires |m.data| <= |v.slots[free[0]].area|
    ensures var r := AfterSend(v, stride, msgs, free[0], i, m);
            && Rep(r, stride, Inserted(msgs, i, free[0]), free[1..])
            && MessagesOf(r.slots, Inserted(msgs, i, free[0])) == Inserted(MessagesOf(v.slots, msgs), i, m)
  {
    hide At, Patch, Decode, Partition, LinksOn, Link;
    var r := AfterSend(v, stride, msgs, free[0], i, m);
    var l := Inserted(msgs, i, free[0]);
    SentMessagesLinked(v, stride, msgs, free, i, m);
    SentFreeLinked(v, stride, msgs, free, i, m);
    SendPartition(msgs, free, |v.slots|, i);
    forall k: nat | k < |v.slots| ensures |r.slots[k].area| == stride - SIZEOF_MSG_HDR {
      SentOthersKept(v, stride, msgs, free, i, m, k);
    }
    var q := Inserted(MessagesOf(v.slots, msgs), i, m);
    forall j: nat | j < |l| ensures r.slots[l[j]].len <= v.hdr.msgsize && MessageAt(r.slots[l[j]]) == q[j] {
      SentMessages(v, stride, msgs, free, i, m, j);
    }
  }

  /** The records after the first message was taken off and its slot pushed on the free list. */
  ghost function AfterReceive(v: View, stride: nat, k: nat): View
    requires k < |v.slots| && v.hdr.curmsgs > 0
  {
    View(v.hdr.(head := v.slots[k].next, free := At(k, stride), curmsgs := v.hdr.curmsgs - 1),
         v.slots[k := v.slots[k].(next := v.hdr.free)])
  }

  lemma ReceivedMessagesLinked(v: View, stride: nat, msgs: seq<nat>, free: seq<nat>)
    requires Rep(v, stride, msgs, free) && msgs != []
    ensures var r := AfterReceive(v, stride, msgs[0]); Linked(r.slots, stride, r.hdr.head, msgs[1..])
    ensures forall j: nat | j < |msgs[1..]| :: msgs[1..][j] != msgs[0]
  {
    var r, l := AfterReceive(v, stride, msgs[0]), msgs[1..];
    assert LinksOn(v.slots, stride, msgs, 0);
    forall j: nat | j < |l| ensures l[j] != msgs[0] && LinksOn(r.slots, stride, l, j) {
      assert LinksOn(v.slots, stride, msgs, j + 1);
      MetOnce(msgs, free, |v.slots|, 0, j + 1);
    }
  }

  lemma ReceivedFreeLinked(v: View, stride: nat, msgs: seq<nat>, free: seq<nat>)
    requires Rep(v, stride, msgs, free) && msgs != []
    ensures var r := AfterReceive(v, stride, msgs[0]); Linked(r.slots, stride, r.hdr.free, [msgs[0]] + free)
  {
    var r, g := AfterReceive(v, stride, msgs[0]), [msgs[0]] + free;
    forall j: nat | j < |g| ensures LinksOn(r.slots, stride, g, j) {
      if j > 0 {
        assert LinksOn(v.slots, stride, free, j - 1);
        NotShared(msgs, free, |v.slots|, 0, j - 1);
      }
    }
  }

  /** The lists stay well-formed, and the queue loses its first message. */
  lemma ReceiveKeepsRep(v: View, stride: nat, msgs: seq<nat>, free: seq<nat>)
    requires Rep(v, stride, msgs, free) && msgs != []
    ensures var r := AfterReceive(v, stride, msgs[0]);
            && Rep(r, stride, msgs[1..], [msgs[0]] + free)
            && MessagesOf(r.slots, msgs[1..]) == MessagesOf(v.slots, msgs)[1..]
  {
    var r, l := AfterReceive(v, stride, msgs[0]), msgs[1..];
    ReceivedMessagesLinked(v, stride, msgs, free);
    ReceivedFreeLinked(v, stride, msgs, free);
    ReceivePartition(msgs, free, |v.slots|);
    forall j: nat | j < |l|
      ensures r.slots[l[j]].len <= r.hdr.msgsize && MessageAt(r.slots[l[j]]) == MessagesOf(v.slots, msgs)[j + 1]
    {
      assert l[j] == msgs[j + 1];
    }
  }
}
