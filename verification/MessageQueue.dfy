/** mq_open's initialisation, mq_send and mq_receive (my_pxmsg_mmp), on the bytes of the mapped
 *  file.  Each is proved to do to the queue of messages that the bytes hold what QueueSpec says. */
module MessageQueue {
  import opened Basics
  import opened QueueSpec
  import opened Arena
  import opened QueueLists

  const MQI_MAGIC := 0x98765432
  const LONG_MAX: nat := 0x7FFF_FFFF_FFFF_FFFF
  const UINT_MAX: nat := 0xFFFF_FFFF

  // ----- what a mapped file holds

  ghost function HdrOf(m: Memory): Header
    requires SIZEOF_MQ_HDR <= |m|
  {
    HeaderOf(HeaderBytes(m))
  }

  ghost predicate Sized(m: Memory) {
    && SIZEOF_MQ_HDR <= |m| <= LONG_MAX
    && HdrOf(m).maxmsg > 0 && HdrOf(m).msgsize > 0
    && |m| == FileSize(HdrOf(m).maxmsg, Stride(HdrOf(m).msgsize))
  }

  ghost function Records(m: Memory): View
    requires Sized(m)
  {
    ViewOf(m, HdrOf(m).maxmsg, Stride(HdrOf(m).msgsize))
  }

  /** The two lists hold every slot exactly once. */
  ghost predicate Holds(m: Memory, msgs: seq<nat>, free: seq<nat>) {
    Sized(m) && Rep(Records(m), Stride(HdrOf(m).msgsize), msgs, free)
  }

  ghost predicate Valid(m: Memory) {
    exists msgs, free :: Holds(m, msgs, free)
  }

  /** The queue in the bytes: its messages are met by walking the offsets from mqh_head. */
  ghost function QueueOf(m: Memory): Queue
    requires SIZEOF_MQ_HDR <= |m|
  {
    var h := HdrOf(m);
    Queue(h.maxmsg, h.msgsize, Walk(m, h.head, h.maxmsg), h.nwait, h.pid, h.notify == 0)
  }

  lemma SomeRoom(m: Memory)
    requires Valid(m)
    ensures SIZEOF_MQ_HDR <= |m| && QueueOf(m).maxmsg > 0
  {
  }

  lemma QueueHeld(m: Memory, msgs: seq<nat>, free: seq<nat>)
    requires Holds(m, msgs, free)
    ensures var v, h := Records(m), HdrOf(m);
            QueueOf(m) == Queue(h.maxmsg, h.msgsize, MessagesOf(v.slots, msgs), h.nwait, h.pid, h.notify == 0)
    ensures |msgs| + |free| == HdrOf(m).maxmsg && HdrOf(m).curmsgs == |msgs|
  {
    WalkIsMessages(m, HdrOf(m).maxmsg, Stride(HdrOf(m).msgsize), msgs, free);
    CountsAddUp(msgs, free, HdrOf(m).maxmsg);
  }

  lemma LongFits(v: nat)
    requires v <= LONG_MAX
    ensures v < Limit(8)
  {
    LongLimit(v);
  }

  // ----- stores

  method Memcpy(mptr: array<Byte>, a: nat, src: seq<Byte>)
    requires a + |src| <= mptr.Length
    modifies mptr
    ensures mptr[..] == Patch(old(mptr[..]), a, src)
  {
    var i := 0;
    while i < |src|
      invariant 0 <= i <= |src|
      invariant mptr[..] == Patch(old(mptr[..]), a, src[..i])
    {
      mptr[a + i] := src[i];
      i := i + 1;
      assert src[..i] == src[..i - 1] + [src[i - 1]];
    }
    assert src[..i] == src;
  }

  method StoreHeader(mptr: array<Byte>, a: nat, v: nat, ghost n: nat, ghost stride: nat)
    requires mptr.Length == FileSize(n, stride) && SIZEOF_MSG_HDR <= stride
    requires Stored(a) && v < Limit(Width(a))
    modifies mptr
    ensures ViewOf(mptr[..], n, stride)
         == View(With(old(ViewOf(mptr[..], n, stride)).hdr, a, v), old(ViewOf(mptr[..], n, stride)).slots)
  {
    StoreInHeader(mptr[..], n, stride, a, v);
    Memcpy(mptr, a, Encode(v, Width(a)));
  }

  method StoreSlot(mptr: array<Byte>, a: nat, v: nat, ghost n: nat, ghost stride: nat, ghost k: nat, f: nat)
    requires mptr.Length == FileSize(n, stride) && SIZEOF_MSG_HDR <= stride
    requires k < n && a == At(k, stride) + f && f in {0, MSG_LEN, MSG_PRIO} && v < Limit(SlotWidth(f))
    modifies mptr
    ensures var o := old(ViewOf(mptr[..], n, stride));
            ViewOf(mptr[..], n, stride) == View(o.hdr, o.slots[k := SlotWith(o.slots[k], f, v)])
  {
    StoreInSlot(mptr[..], n, stride, k, f, a, v);
    Memcpy(mptr, a, Encode(v, SlotWidth(f)));
  }

  /** The memcpy of a message behind its slot's header. */
  method CopyPayload(mptr: array<Byte>, a: nat, src: seq<Byte>, ghost n: nat, ghost stride: nat, ghost k: nat)
    requires mptr.Length == FileSize(n, stride) && SIZEOF_MSG_HDR + |src| <= stride
    requires k < n && a == At(k, stride) + SIZEOF_MSG_HDR
    modifies mptr
    ensures var o := old(ViewOf(mptr[..], n, stride));
            && |src| <= |o.slots[k].area|
            && ViewOf(mptr[..], n, stride) == View(o.hdr, o.slots[k := o.slots[k].(area := Patch(o.slots[k].area, 0, src))])
  {
    StorePayload(mptr[..], n, stride, k, a, src);
    Memcpy(mptr, a, src);
  }

  /** A store through a `struct msg_hdr *` that points to a slot, or to mqh_head itself: msg_next
   *  is the first member, so the head of the list takes the place of a slot. */
  method StoreNext(mptr: array<Byte>, a: nat, v: nat, ghost n: nat, ghost stride: nat, ghost k: Option<nat>)
    requires mptr.Length == FileSize(n, stride) && SIZEOF_MSG_HDR <= stride && v <= LONG_MAX
    requires match k case None => a == MQH_HEAD case Some(s) => s < n && a == At(s, stride)
    modifies mptr
    ensures var o := old(ViewOf(mptr[..], n, stride));
            ViewOf(mptr[..], n, stride) == match k
              case None => View(o.hdr.(head := v), o.slots)
              case Some(s) => View(o.hdr, o.slots[s := o.slots[s].(next := v)])
  {
    LongFits(v);
    if k.Some? {
      StoreInSlot(mptr[..], n, stride, k.value, 0, a, v);
    } else {
      StoreInHeader(mptr[..], n, stride, a, v);
    }
    Memcpy(mptr, a, Encode(v, 8));
  }

  // ----- initialisation

  function Upto(n: nat): (l: seq<nat>)
    ensures |l| == n && forall k | 0 <= k < n :: l[k] == k
  {
    if n == 0 then [] else Upto(n - 1) + [n - 1]
  }

  lemma {:induction false} UptoIsAll(n: nat)
    ensures Partition([], Upto(n), n)
  {
    if n > 0 { UptoIsAll(n - 1); }
  }

  lemma {:induction false} Sizes(maxmsg: nat, msgsize: nat)
    ensures maxmsg <= FileSize(maxmsg, Stride(msgsize))
    ensures maxmsg > 0 ==> msgsize <= FileSize(maxmsg, Stride(msgsize))
  {
    MsgSizeIsLeastMultiple(msgsize, 0);
    if maxmsg > 0 { Sizes(maxmsg - 1, msgsize); }
  }

  method WriteHeader(mptr: array<Byte>, maxmsg: nat, msgsize: nat, ghost stride: nat)
    requires mptr.Length == FileSize(maxmsg, stride) <= LONG_MAX && SIZEOF_MSG_HDR <= stride
    requires maxmsg <= LONG_MAX && msgsize <= LONG_MAX
    modifies mptr
    ensures var o := old(ViewOf(mptr[..], maxmsg, stride));
            ViewOf(mptr[..], maxmsg, stride)
            == View(Header(maxmsg, msgsize, 0, 0, SIZEOF_MQ_HDR, 0, 0, o.hdr.notify), o.slots)
  {
    hide Decode;
    LongFits(maxmsg);
    LongFits(msgsize);
    LongFits(SIZEOF_MQ_HDR);
    LongLimit(0);
    StoreHeader(mptr, MQ_MAXMSG, maxmsg, maxmsg, stride);
    StoreHeader(mptr, MQ_MSGSIZE, msgsize, maxmsg, stride);
    StoreHeader(mptr, MQ_CURMSGS, 0, maxmsg, stride);
    StoreHeader(mptr, MQH_NWAIT, 0, maxmsg, stride);
    StoreHeader(mptr, MQH_PID, 0, maxmsg, stride);
    StoreHeader(mptr, MQH_HEAD, 0, maxmsg, stride);
    StoreHeader(mptr, MQH_FREE, SIZEOF_MQ_HDR, maxmsg, stride);
  }

  /** Slots below `i` link to the next one, slot `i` to `last`. */
  ghost predicate Threaded(slots: seq<Slot>, stride: nat, i: nat, last: nat) {
    && i < |slots| && slots[i].next == last
    && forall k: nat | k < i :: slots[k].next == At(k + 1, stride)
  }

  /** The loop that links every slot to the next one. */
  method ThreadFreeList(mptr: array<Byte>, maxmsg: nat, stride: nat)
    requires mptr.Length == FileSize(maxmsg, stride) <= LONG_MAX && SIZEOF_MSG_HDR <= stride && maxmsg > 0
    modifies mptr
    ensures ViewOf(mptr[..], maxmsg, stride).hdr == old(ViewOf(mptr[..], maxmsg, stride)).hdr
    ensures Threaded(ViewOf(mptr[..], maxmsg, stride).slots, stride, maxmsg - 1, 0)
  {
    hide Decode;
    var index := SIZEOF_MQ_HDR;
    var i := 0;
    ghost var v := ViewOf(mptr[..], maxmsg, stride);
    ghost var slots := v.slots;
    while i < maxmsg - 1
      invariant 0 <= i <= maxmsg - 1 && index == At(i, stride) && |slots| == maxmsg
      invariant ViewOf(mptr[..], maxmsg, stride) == View(v.hdr, slots)
      invariant forall k: nat | k < i :: slots[k].next == At(k + 1, stride)
    {
      var next := index + stride;
      SlotBefore(i + 1, maxmsg, stride);
      StoreNext(mptr, index, next, maxmsg, stride, Some(i));
      slots := slots[i := slots[i].(next := next)];
      index := next;
      i := i + 1;
    }
    StoreNext(mptr, index, 0, maxmsg, stride, Some(i));
  }

  lemma {:induction false} ZeroBytes(n: nat)
    ensures Decode(seq(n, _ => 0)) == 0
  {
    if n > 0 {
      assert seq(n, _ => 0)[1..] == seq(n - 1, _ => 0);
      ZeroBytes(n - 1);
    }
  }

  lemma ThreadedIsLinked(slots: seq<Slot>, stride: nat, n: nat, l: seq<nat>)
    requires n == |slots| > 0 && Threaded(slots, stride, n - 1, 0)
    requires |l| == n && forall k | 0 <= k < n :: l[k] == k
    ensures Linked(slots, stride, SIZEOF_MQ_HDR, l)
  {
    forall k: nat | k < n ensures LinksOn(slots, stride, l, k) {
      var s := slots[l[k]];
      if k < n - 1 { assert slots[k].next == At(k + 1, stride); }
    }
  }

  lemma {:induction false} FreshRep(m: Memory, v: View, n: nat, stride: nat)
    requires |m| == FileSize(n, stride) && SIZEOF_MSG_HDR <= stride && v == ViewOf(m, n, stride)
    requires v.hdr.maxmsg == n > 0 && stride == Stride(v.hdr.msgsize)
    requires v.hdr.curmsgs == 0 && v.hdr.head == 0 && v.hdr.free == SIZEOF_MQ_HDR
    requires Threaded(v.slots, stride, n - 1, 0)
    ensures Rep(v, stride, [], Upto(n))
  {
    UptoIsAll(n);
    ThreadedIsLinked(v.slots, stride, n, Upto(n));
    forall k: nat | k < n ensures |v.slots[k].area| == stride - SIZEOF_MSG_HDR {
      SlotRead(m, n, stride, k, At(k, stride));
    }
  }

  /** The creator's part of mq_open: lay out the file, thread every slot on the free list. */
  method Initialise(maxmsg: nat, msgsize: nat) returns (mptr: array<Byte>)
    requires maxmsg > 0 && msgsize > 0 && FileSize(maxmsg, Stride(msgsize)) <= LONG_MAX
    ensures fresh(mptr) && mptr.Length == SIZEOF_MQ_HDR + maxmsg * (SIZEOF_MSG_HDR + MsgSize(msgsize))
    ensures Holds(mptr[..], [], Upto(maxmsg)) && Valid(mptr[..])
    ensures QueueOf(mptr[..]) == Queue(maxmsg, msgsize, [], 0, 0, true)
  {
    hide Decode, Walk, Threaded, Partition, Linked;
    var stride := Stride(msgsize);
    var filesize := SIZEOF_MQ_HDR + maxmsg * stride;
    SlotOffset(maxmsg, stride);
    Sizes(maxmsg, msgsize);
    mptr := new Byte[filesize](_ => 0);
    ZeroBytes(4);
    assert HeaderBytes(mptr[..])[MQH_SIGEV_NOTIFY..MQH_SIGEV_NOTIFY + 4] == seq(4, _ => 0);
    WriteHeader(mptr, maxmsg, msgsize, stride);
    ThreadFreeList(mptr, maxmsg, stride);
    FreshRep(mptr[..], ViewOf(mptr[..], maxmsg, stride), maxmsg, stride);
    assert Holds(mptr[..], [], Upto(maxmsg));
    QueueHeld(mptr[..], [], Upto(maxmsg));
  }

  lemma {:induction false} OffsetsFit(m: Memory, k: nat)
    requires Sized(m) && k < HdrOf(m).maxmsg
    ensures 0 < At(k, Stride(HdrOf(m).msgsize)) <= LONG_MAX
    ensures HdrOf(m).maxmsg <= LONG_MAX && HdrOf(m).msgsize <= LONG_MAX
  {
    SlotBefore(k, HdrOf(m).maxmsg, Stride(HdrOf(m).msgsize));
    Sizes(HdrOf(m).maxmsg, HdrOf(m).msgsize);
  }

  /** The file after a completed send or receive: same size, new records, well-formed lists. */
  lemma Rehold(m0: Memory, m: Memory, msgs: seq<nat>, free: seq<nat>)
    requires Sized(m0) && |m| == |m0|
    requires var v := ViewOf(m, HdrOf(m0).maxmsg, Stride(HdrOf(m0).msgsize));
             && v.hdr.maxmsg == HdrOf(m0).maxmsg && v.hdr.msgsize == HdrOf(m0).msgsize
             && Rep(v, Stride(HdrOf(m0).msgsize), msgs, free)
    ensures Holds(m, msgs, free) && Valid(m)
  {
    assert Holds(m, msgs, free);
  }

  /** One per process and open: the mapping, and the process's own flags. */
  class MqInfo {
    const mqi_hdr: array<Byte>
    var mqi_magic: int
    const nonblock: bool

    constructor (mapping: array<Byte>, nonblock: bool)
      ensures mqi_hdr == mapping && mqi_magic == MQI_MAGIC && this.nonblock == nonblock
    {
      mqi_hdr, mqi_magic, this.nonblock := mapping, MQI_MAGIC, nonblock;
    }

    function Long(a: nat): nat
      requires a + 8 <= mqi_hdr.Length
      reads mqi_hdr
    {
      Field(mqi_hdr[..], a, 8)
    }

    /** Store a message in slot `f`, whose offset is `a`. */
    method Fill(a: nat, ptr: seq<Byte>, prio: nat, ghost f: nat, ghost n: nat, ghost stride: nat)
      requires mqi_hdr.Length == FileSize(n, stride) && f < n && a == At(f, stride)
      requires SIZEOF_MSG_HDR + |ptr| <= stride && |ptr| <= LONG_MAX && prio <= UINT_MAX
      modifies mqi_hdr
      ensures var o := old(ViewOf(mqi_hdr[..], n, stride));
              && |ptr| <= |o.slots[f].area|
              && ViewOf(mqi_hdr[..], n, stride)
              == View(o.hdr, o.slots[f := Filled(o.slots[f], o.slots[f].next, Message(prio, ptr))])
    {
      hide Decode;
      LongFits(|ptr|);
      LongLimit(prio);
      ghost var o := ViewOf(mqi_hdr[..], n, stride);
      ghost var s := o.slots[f];
      StoreSlot(mqi_hdr, a + MSG_PRIO, prio, n, stride, f, MSG_PRIO);
      ghost var s1 := s.(prio := prio);
      assert ViewOf(mqi_hdr[..], n, stride) == View(o.hdr, o.slots[f := s1]);
      StoreSlot(mqi_hdr, a + MSG_LEN, |ptr|, n, stride, f, MSG_LEN);
      ghost var s2 := s1.(len := |ptr|);
      assert ViewOf(mqi_hdr[..], n, stride) == View(o.hdr, o.slots[f := s2]);
      CopyPayload(mqi_hdr, a + SIZEOF_MSG_HDR, ptr, n, stride, f);
      assert Filled(s, s.next, Message(prio, ptr)) == s2.(area := Patch(s.area, 0, ptr));
    }

    /** Fill the first free slot and take it off the free list. */
    method TakeFree(ptr: seq<Byte>, prio: nat, ghost msgs: seq<nat>, ghost free: seq<nat>) returns (freeindex: nat)
      requires Holds(mqi_hdr[..], msgs, free) && |msgs| < HdrOf(mqi_hdr[..]).maxmsg
      requires |ptr| <= HdrOf(mqi_hdr[..]).msgsize && prio <= UINT_MAX
      modifies mqi_hdr
      ensures free != [] && freeindex == At(free[0], old(Stride(HdrOf(mqi_hdr[..]).msgsize)))
      ensures var o, stride := old(Records(mqi_hdr[..])), old(Stride(HdrOf(mqi_hdr[..]).msgsize));
              var s := o.slots[free[0]];
              && |ptr| <= |s.area|
              && ViewOf(mqi_hdr[..], o.hdr.maxmsg, stride)
              == View(o.hdr.(free := s.next), o.slots[free[0] := Filled(s, s.next, Message(prio, ptr))])
    {
      hide Decode;
      ghost var n, stride := HdrOf(mqi_hdr[..]).maxmsg, Stride(HdrOf(mqi_hdr[..]).msgsize);
      QueueHeld(mqi_hdr[..], msgs, free);
      HeaderRead(mqi_hdr[..], MQH_FREE, 8);
      freeindex := Long(MQH_FREE);
      OffsetsFit(mqi_hdr[..], free[0]);
      if freeindex == 0 { assert false; }
      FirstFree(mqi_hdr[..], msgs, free);
      Fill(freeindex, ptr, prio, free[0], n, stride);
      SlotRead(mqi_hdr[..], n, stride, free[0], freeindex);
      StoreHeader(mqi_hdr, MQH_FREE, Long(freeindex), n, stride);
    }

    /** The walk from mqh_head to the first message of lower priority, with the address through
     *  which that message is reached. */
    method FindPlace(prio: nat, ghost n: nat, ghost stride: nat, ghost msgs: seq<nat>)
      returns (index: nat, pmsghdr: nat, ghost i: nat)
      requires mqi_hdr.Length == FileSize(n, stride) && SIZEOF_MSG_HDR <= stride
      requires var v := ViewOf(mqi_hdr[..], n, stride); Linked(v.slots, stride, v.hdr.head, msgs)
      ensures i <= |msgs| && index == Link(msgs, i, stride)
      ensures pmsghdr == if i == 0 then MQH_HEAD else At(msgs[i - 1], stride)
      ensures var slots := ViewOf(mqi_hdr[..], n, stride).slots;
              && AtLeast(slots, msgs, i, prio)
              && (i < |msgs| ==> slots[msgs[i]].prio < prio)
    {
      hide Decode, HeaderOf, SlotOf, ViewOf, At;
      ghost var v := ViewOf(mqi_hdr[..], n, stride);
      HeadRead(mqi_hdr[..], n, stride);
      index, pmsghdr, i := Long(MQH_HEAD), MQH_HEAD, 0;
      while index != 0
        invariant i <= |msgs| && index == Link(msgs, i, stride)
        invariant pmsghdr == if i == 0 then MQH_HEAD else At(msgs[i - 1], stride)
        invariant AtLeast(v.slots, msgs, i, prio)
        decreases |msgs| - i
      {
        OneSlotFurther(mqi_hdr[..], n, stride, v, msgs, i, index, prio);
        var p := Field(mqi_hdr[..], index + MSG_PRIO, 4);
        if prio > p { break; }
        pmsghdr := index;
        index := Long(index);
        i := i + 1;
      }
    }

    /** Link the filled slot `f` in front of `index`, behind what `pmsghdr` points to. */
    method LinkIn(freeindex: nat, index: nat, pmsghdr: nat,
                  ghost f: nat, ghost prev: Option<nat>, ghost n: nat, ghost stride: nat)
      requires mqi_hdr.Length == FileSize(n, stride) && SIZEOF_MSG_HDR <= stride
      requires f < n && freeindex == At(f, stride) <= LONG_MAX && index <= LONG_MAX
      requires match prev case None => pmsghdr == MQH_HEAD case Some(p) => p < n && p != f && pmsghdr == At(p, stride)
      modifies mqi_hdr
      ensures var o := old(ViewOf(mqi_hdr[..], n, stride));
              var slots := o.slots[f := o.slots[f].(next := index)];
              ViewOf(mqi_hdr[..], n, stride) == match prev
                case None => View(o.hdr.(head := freeindex), slots)
                case Some(p) => View(o.hdr, slots[p := slots[p].(next := freeindex)])
    {
      hide Decode;
      if index != 0 {
        StoreNext(mqi_hdr, freeindex, index, n, stride, Some(f));
        StoreNext(mqi_hdr, pmsghdr, freeindex, n, stride, prev);
      } else {
        StoreNext(mqi_hdr, pmsghdr, freeindex, n, stride, prev);
        StoreNext(mqi_hdr, freeindex, 0, n, stride, Some(f));
      }
    }

    /** Lines 64 to 102 of mq_send: take a free slot, fill it, link it in. */
    method InsertMessage(ptr: seq<Byte>, prio: nat, ghost n: nat, ghost stride: nat, ghost msgs: seq<nat>, ghost free: seq<nat>)
      returns (ghost i: nat)
      requires Holds(mqi_hdr[..], msgs, free) && |msgs| < n
      requires n == HdrOf(mqi_hdr[..]).maxmsg && stride == Stride(HdrOf(mqi_hdr[..]).msgsize)
      requires |ptr| <= HdrOf(mqi_hdr[..]).msgsize && prio <= UINT_MAX
      modifies mqi_hdr
      ensures var o, v, m := old(Records(mqi_hdr[..])), ViewOf(mqi_hdr[..], n, stride), Message(prio, ptr);
              && free != [] && i <= |msgs| && |ptr| <= |o.slots[free[0]].area|
              && AtLeast(o.slots, msgs, i, prio) && (i < |msgs| ==> o.slots[msgs[i]].prio < prio)
              && v.hdr.curmsgs == o.hdr.curmsgs
              && View(v.hdr.(curmsgs := o.hdr.curmsgs + 1), v.slots) == AfterSend(o, stride, msgs, free[0], i, m)
    {
      hide Decode;
      ghost var m0, o, m := mqi_hdr[..], Records(mqi_hdr[..]), Message(prio, ptr);
      var freeindex := TakeFree(ptr, prio, msgs, free);
      ghost var v1 := ViewOf(mqi_hdr[..], n, stride);
      FilledKeepsMessages(o, stride, msgs, free, m);
      var index, pmsghdr;
      index, pmsghdr, i := FindPlace(prio, n, stride, msgs);
      FilledKeepsPrios(o, v1.slots, msgs, i, prio);
      ghost var prev := if i == 0 then None else Some(msgs[i - 1]);
      NeighboursFit(m0, msgs, free, i);
      LinkIn(freeindex, index, pmsghdr, free[0], prev, n, stride);
      Assembled(o, v1, ViewOf(mqi_hdr[..], n, stride), stride, msgs, free[0], i, m);
    }

    /** mq_send once there is room. */
    method Put(ptr: seq<Byte>, prio: nat, ghost msgs: seq<nat>, ghost free: seq<nat>) returns (signal: bool)
      requires Holds(mqi_hdr[..], msgs, free) && |msgs| < HdrOf(mqi_hdr[..]).maxmsg
      requires |ptr| <= HdrOf(mqi_hdr[..]).msgsize && prio <= UINT_MAX
      modifies mqi_hdr
      ensures Valid(mqi_hdr[..])
      ensures signal == (old(QueueOf(mqi_hdr[..])).messages == [])
      ensures QueueOf(mqi_hdr[..]) == old(QueueOf(mqi_hdr[..])).(messages := Insert(old(QueueOf(mqi_hdr[..])).messages, Message(prio, ptr)))
    {
      hide Decode, Insert, Walk;
      ghost var m0, n, stride := mqi_hdr[..], HdrOf(mqi_hdr[..]).maxmsg, Stride(HdrOf(mqi_hdr[..]).msgsize);
      ghost var o := Records(mqi_hdr[..]);
      QueueHeld(m0, msgs, free);
      OffsetsFit(m0, 0);
      LongFits(|msgs| + 1);
      ghost var i := InsertMessage(ptr, prio, n, stride, msgs, free);
      HeaderRead(mqi_hdr[..], MQ_CURMSGS, 8);
      var cur := Long(MQ_CURMSGS);
      signal := cur == 0;
      StoreHeader(mqi_hdr, MQ_CURMSGS, cur + 1, n, stride);
      SentFile(m0, mqi_hdr[..], n, stride, o, ViewOf(mqi_hdr[..], n, stride), msgs, free, i, Message(prio, ptr));
    }

    /** Store one of the two header fields that no list depends on. */
    method StoreAside(a: nat, v: nat, ghost msgs: seq<nat>, ghost free: seq<nat>)
      requires Holds(mqi_hdr[..], msgs, free) && a in {MQH_NWAIT, MQH_PID} && v < Limit(Width(a))
      modifies mqi_hdr
      ensures Holds(mqi_hdr[..], msgs, free)
      ensures QueueOf(mqi_hdr[..]) == if a == MQH_NWAIT then old(QueueOf(mqi_hdr[..])).(nwait := v)
                                      else old(QueueOf(mqi_hdr[..])).(pid := v)
    {
      hide Decode, Walk, Limit;
      ghost var m0, n, stride := mqi_hdr[..], HdrOf(mqi_hdr[..]).maxmsg, Stride(HdrOf(mqi_hdr[..]).msgsize);
      QueueHeld(m0, msgs, free);
      StoreHeader(mqi_hdr, a, v, n, stride);
      Rehold(m0, mqi_hdr[..], msgs, free);
      QueueHeld(mqi_hdr[..], msgs, free);
    }

    /** Lines 39 to 47 of mq_send: tell the registered process and unregister it. */
    method Notify(ghost msgs: seq<nat>, ghost free: seq<nat>) returns (notify: Option<nat>)
      requires Holds(mqi_hdr[..], msgs, free)
      modifies mqi_hdr
      ensures Holds(mqi_hdr[..], msgs, free)
      ensures var q := old(QueueOf(mqi_hdr[..]));
              var registered := q.pid != 0 && q.nwait == 0;
              && QueueOf(mqi_hdr[..]) == q.(pid := if registered then 0 else q.pid)
              && notify == if registered && q.sigevSignal then Some(q.pid) else None
    {
      hide Decode, Walk, Limit, HeaderOf, ViewOf, Rep, FileSize, Stride;
      HeaderReads(mqi_hdr[..]);
      notify := None;
      var pid := Field(mqi_hdr[..], MQH_PID, 4);
      if pid != 0 && Long(MQH_NWAIT) == 0 {
        if Field(mqi_hdr[..], MQH_SIGEV_NOTIFY, 4) == 0 { notify := Some(pid); }
        LongLimit(0);
        StoreAside(MQH_PID, 0, msgs, free);
      }
    }

    /** mq_send behind pthread_mutex_lock, or (`woken`) behind pthread_cond_wait. */
    method SendLocked(ptr: seq<Byte>, prio: nat, woken: bool) returns (r: SendOutcome)
      requires Valid(mqi_hdr[..]) && prio <= UINT_MAX
      requires woken ==> |ptr| <= QueueOf(mqi_hdr[..]).msgsize  // it passed the test before it slept
      modifies mqi_hdr
      ensures Valid(mqi_hdr[..])
      ensures (QueueOf(mqi_hdr[..]), r) == SendEffect(old(QueueOf(mqi_hdr[..])), Message(prio, ptr), nonblock, woken)
    {
      hide Decode, Walk, Insert, Limit, HeaderOf, ViewOf, Rep, FileSize, Stride;
      ghost var msgs, free :| Holds(mqi_hdr[..], msgs, free);
      QueueHeld(mqi_hdr[..], msgs, free);
      HeaderReads(mqi_hdr[..]);
      if !woken && |ptr| > Long(MQ_MSGSIZE) { return TooLong; }
      var notify := None;
      if !woken && Long(MQ_CURMSGS) == 0 {
        notify := Notify(msgs, free);
        QueueHeld(mqi_hdr[..], msgs, free);
      } else if Long(MQ_CURMSGS) >= Long(MQ_MAXMSG) {
        return if nonblock && !woken then SendAgain else SendSleeps;
      }
      var signal := Put(ptr, prio, msgs, free);
      r := Sent(signal, notify);
    }

    /** mq_send, up to its return or its next wait.  None: bad descriptor. */
    method Send(ptr: seq<Byte>, prio: nat, woken: bool) returns (r: Option<SendOutcome>)
      requires Valid(mqi_hdr[..]) && prio <= UINT_MAX
      requires woken ==> |ptr| <= QueueOf(mqi_hdr[..]).msgsize
      modifies mqi_hdr
      ensures Valid(mqi_hdr[..])
      ensures r == None <==> !woken && mqi_magic != MQI_MAGIC
      ensures r == None ==> mqi_hdr[..] == old(mqi_hdr[..])
      ensures r != None ==> (QueueOf(mqi_hdr[..]), r.value) == SendEffect(old(QueueOf(mqi_hdr[..])), Message(prio, ptr), nonblock, woken)
      ensures r != None ==>
                SendAnswer(old(QueueOf(mqi_hdr[..])), Message(prio, ptr), nonblock, woken, QueueOf(mqi_hdr[..]), r.value)
    {
      hide QueueOf, Holds, SendEffect, SendAnswer;
      if !woken && mqi_magic != MQI_MAGIC { return None; }
      SomeRoom(mqi_hdr[..]);
      ghost var q := QueueOf(mqi_hdr[..]);
      var answer := SendLocked(ptr, prio, woken);
      Answers(q, Message(prio, ptr), 0, nonblock, woken);
      r := Some(answer);
    }

    /** Take slot `k` off the head of the message list and push it on the free list. */
    method GiveBack(index: nat, next: nat, ghost k: nat, ghost n: nat, ghost stride: nat) returns (signal: bool)
      requires mqi_hdr.Length == FileSize(n, stride) && SIZEOF_MSG_HDR <= stride && k < n && index == At(k, stride) <= LONG_MAX
      requires var o := ViewOf(mqi_hdr[..], n, stride);
               next == o.slots[k].next < Limit(8) && o.hdr.free <= LONG_MAX && 0 < o.hdr.curmsgs < Limit(8)
      modifies mqi_hdr
      ensures var o := old(ViewOf(mqi_hdr[..], n, stride));
              && ViewOf(mqi_hdr[..], n, stride) == AfterReceive(o, stride, k)
              && signal == (o.hdr.curmsgs == o.hdr.maxmsg)
    {
      hide Decode, Limit, At, HeaderOf, SlotOf;
      StoreHeader(mqi_hdr, MQH_HEAD, next, n, stride);
      HeaderReads(mqi_hdr[..]);
      StoreNext(mqi_hdr, index, Long(MQH_FREE), n, stride, Some(k));
      LongFits(index);
      StoreHeader(mqi_hdr, MQH_FREE, index, n, stride);
      HeaderReads(mqi_hdr[..]);
      var cur := Long(MQ_CURMSGS);
      signal := cur == Long(MQ_MAXMSG);
      StoreHeader(mqi_hdr, MQ_CURMSGS, cur - 1, n, stride);
    }

    /** Lines 57 to 80 of mq_receive: take the first message, give its slot back. */
    method Take(ghost msgs: seq<nat>, ghost free: seq<nat>) returns (message: Message, signal: bool)
      requires Holds(mqi_hdr[..], msgs, free) && msgs != [] && QueueOf(mqi_hdr[..]).messages != []
      modifies mqi_hdr
      ensures Valid(mqi_hdr[..])
      ensures message == old(QueueOf(mqi_hdr[..])).messages[0]
      ensures signal == (|old(QueueOf(mqi_hdr[..])).messages| == old(QueueOf(mqi_hdr[..])).maxmsg)
      ensures QueueOf(mqi_hdr[..]) == old(QueueOf(mqi_hdr[..])).(messages := old(QueueOf(mqi_hdr[..])).messages[1..])
    {
      hide Decode, Walk, Limit, At;
      ghost var m0, n, stride := mqi_hdr[..], HdrOf(mqi_hdr[..]).maxmsg, Stride(HdrOf(mqi_hdr[..]).msgsize);
      ghost var o, k := Records(mqi_hdr[..]), msgs[0];
      QueueHeld(m0, msgs, free);
      HeaderReads(m0);
      OffsetsFit(m0, k);
      var index := Long(MQH_HEAD);
      if index == 0 { assert false; }
      FirstMessage(m0, n, stride, o, msgs, free, index);
      var next, len, prio := Long(index), Long(index + MSG_LEN), Field(mqi_hdr[..], index + MSG_PRIO, 4);
      message := Message(prio, mqi_hdr[index + SIZEOF_MSG_HDR..index + SIZEOF_MSG_HDR + len]);
      signal := GiveBack(index, next, k, n, stride);
      ReceivedFile(m0, mqi_hdr[..], n, stride, o, ViewOf(mqi_hdr[..], n, stride), msgs, free);
    }

    /** Add `delta` to mqh_nwait. */
    method CountWaiter(delta: int, ghost msgs: seq<nat>, ghost free: seq<nat>)
      requires Holds(mqi_hdr[..], msgs, free) && 0 <= QueueOf(mqi_hdr[..]).nwait + delta <= LONG_MAX
      modifies mqi_hdr
      ensures Holds(mqi_hdr[..], msgs, free)
      ensures QueueOf(mqi_hdr[..]) == old(QueueOf(mqi_hdr[..])).(nwait := old(QueueOf(mqi_hdr[..])).nwait + delta)
    {
      hide Decode, Walk, Limit, HeaderOf, ViewOf, Rep, FileSize, Stride;
      HeaderReads(mqi_hdr[..]);
      LongFits(Long(MQH_NWAIT) + delta);
      StoreAside(MQH_NWAIT, Long(MQH_NWAIT) + delta, msgs, free);
    }

    /** mq_receive, cut in the same way; a woken receiver is one of those mqh_nwait counts. */
    method ReceiveLocked(maxlen: nat, woken: bool) returns (r: ReceiveOutcome)
      requires Valid(mqi_hdr[..]) && QueueOf(mqi_hdr[..]).nwait < LONG_MAX
      requires woken ==> QueueOf(mqi_hdr[..]).nwait > 0
      modifies mqi_hdr
      ensures Valid(mqi_hdr[..])
      ensures (QueueOf(mqi_hdr[..]), r) == ReceiveEffect(old(QueueOf(mqi_hdr[..])), maxlen, nonblock, woken)
    {
      hide Decode, Walk, Limit, HeaderOf, ViewOf, Rep, FileSize, Stride;
      ghost var q := QueueOf(mqi_hdr[..]);
      ghost var msgs, free :| Holds(mqi_hdr[..], msgs, free);
      QueueHeld(mqi_hdr[..], msgs, free);
      HeaderReads(mqi_hdr[..]);
      if !woken && maxlen < Long(MQ_MSGSIZE) { return BufferTooShort; }
      if Long(MQ_CURMSGS) == 0 {
        if nonblock && !woken { return ReceiveAgain; }
        if !woken { CountWaiter(1, msgs, free); }
        return ReceiveSleeps;
      }
      if woken {
        CountWaiter(-1, msgs, free);
        QueueHeld(mqi_hdr[..], msgs, free);
      }
      var message, signal := Take(msgs, free);
      assert message == q.messages[0] && signal == (|q.messages| == q.maxmsg);
      assert QueueOf(mqi_hdr[..]) == q.(messages := q.messages[1..], nwait := if woken then q.nwait - 1 else q.nwait);
      r := Received(message, signal);
    }

    method Receive(maxlen: nat, woken: bool) returns (r: Option<ReceiveOutcome>)
      requires Valid(mqi_hdr[..]) && QueueOf(mqi_hdr[..]).nwait < LONG_MAX
      requires woken ==> QueueOf(mqi_hdr[..]).nwait > 0
      modifies mqi_hdr
      ensures Valid(mqi_hdr[..])
      ensures r == None <==> !woken && mqi_magic != MQI_MAGIC
      ensures r == None ==> mqi_hdr[..] == old(mqi_hdr[..])
      ensures r != None ==> (QueueOf(mqi_hdr[..]), r.value) == ReceiveEffect(old(QueueOf(mqi_hdr[..])), maxlen, nonblock, woken)
      ensures r != None ==>
                ReceiveAnswer(old(QueueOf(mqi_hdr[..])), maxlen, nonblock, woken, QueueOf(mqi_hdr[..]), r.value)
    {
      hide QueueOf, Holds, ReceiveEffect, ReceiveAnswer;
      if !woken && mqi_magic != MQI_MAGIC { return None; }
      SomeRoom(mqi_hdr[..]);
      ghost var q := QueueOf(mqi_hdr[..]);
      var answer := ReceiveLocked(maxlen, woken);
      Answers(q, Message(0, []), maxlen, nonblock, woken);
      r := Some(answer);
    }
  }

  ghost predicate AtLeast(slots: seq<Slot>, l: seq<nat>, i: nat, prio: nat)
    requires InRange(l, |slots|) && i <= |l|
  {
    forall j: nat | j < i :: slots[l[j]].prio >= prio
  }

  /** What the walk reads at the slot it has reached. */
  lemma {:induction false} OneSlotFurther(m: Memory, n: nat, stride: nat, v: View, l: seq<nat>, i: nat, index: nat, prio: nat)
    requires |m| == FileSize(n, stride) && SIZEOF_MSG_HDR <= stride && v == ViewOf(m, n, stride)
    requires Linked(v.slots, stride, v.hdr.head, l) && i < |l| && index == At(l[i], stride)
    requires AtLeast(v.slots, l, i, prio)
    ensures index + SIZEOF_MSG_HDR <= |m|
    ensures Field(m, index + MSG_PRIO, 4) == v.slots[l[i]].prio && Field(m, index, 8) == Link(l, i + 1, stride)
    ensures v.slots[l[i]].prio >= prio ==> AtLeast(v.slots, l, i + 1, prio)
  {
    SlotRead(m, n, stride, l[i], index);
    assert LinksOn(v.slots, stride, l, i);
  }

  lemma FilledKeepsPrios(o: View, slots: seq<Slot>, l: seq<nat>, i: nat, prio: nat)
    requires |slots| == |o.slots| && InRange(l, |slots|) && i <= |l| && AtLeast(slots, l, i, prio)
    requires forall j: nat | j < |l| :: slots[l[j]] == o.slots[l[j]]
    ensures AtLeast(o.slots, l, i, prio)
  {
  }

  /** The links around position `i` are offsets of slots other than the new one. */
  lemma NeighboursFit(m: Memory, msgs: seq<nat>, free: seq<nat>, i: nat)
    requires Holds(m, msgs, free) && free != [] && i <= |msgs|
    ensures Link(msgs, i, Stride(HdrOf(m).msgsize)) <= LONG_MAX && At(free[0], Stride(HdrOf(m).msgsize)) <= LONG_MAX
    ensures i > 0 ==> msgs[i - 1] < HdrOf(m).maxmsg && msgs[i - 1] != free[0]
  {
    hide Decode;
    if i < |msgs| { OffsetsFit(m, msgs[i]); }
    OffsetsFit(m, free[0]);
    if i > 0 { NotShared(msgs, free, HdrOf(m).maxmsg, i - 1, 0); }
  }

  /** The three groups of stores of mq_send, put together. */
  lemma {:induction false} Assembled(o: View, v1: View, v2: View, stride: nat, msgs: seq<nat>, f: nat, i: nat, m: Message)
    requires InRange(msgs, |o.slots|) && f < |o.slots| && i <= |msgs| && |m.data| <= |o.slots[f].area|
    requires v1 == View(o.hdr.(free := o.slots[f].next), o.slots[f := Filled(o.slots[f], o.slots[f].next, m)])
    requires i > 0 ==> msgs[i - 1] != f
    requires var slots := v1.slots[f := v1.slots[f].(next := Link(msgs, i, stride))];
             v2 == if i == 0 then View(v1.hdr.(head := At(f, stride)), slots)
                   else View(v1.hdr, slots[msgs[i - 1] := slots[msgs[i - 1]].(next := At(f, stride))])
    ensures View(v2.hdr.(curmsgs := o.hdr.curmsgs + 1), v2.slots) == AfterSend(o, stride, msgs, f, i, m)
  {
    assert v1.slots[f := Filled(o.slots[f], Link(msgs, i, stride), m)] == o.slots[f := Filled(o.slots[f], Link(msgs, i, stride), m)];
  }

  lemma HeaderRead(m: Memory, a: nat, n: nat)
    requires SIZEOF_MQ_HDR <= |m| && a + n <= SIZEOF_MQ_HDR
    ensures Field(m, a, n) == Field(HeaderBytes(m), a, n)
  {
    SubRange(m, 0, SIZEOF_MQ_HDR, a, n);
    assert m[0..SIZEOF_MQ_HDR] == HeaderBytes(m);
  }

  lemma HeadRead(m: Memory, n: nat, stride: nat)
    requires |m| == FileSize(n, stride) && SIZEOF_MSG_HDR <= stride
    ensures Field(m, MQH_HEAD, 8) == ViewOf(m, n, stride).hdr.head
  {
    HeaderRead(m, MQH_HEAD, 8);
  }

  /** The header as mq_send and mq_receive read it. */
  lemma HeaderReads(m: Memory)
    requires SIZEOF_MQ_HDR <= |m|
    ensures HdrOf(m) == Header(Field(m, MQ_MAXMSG, 8), Field(m, MQ_MSGSIZE, 8), Field(m, MQ_CURMSGS, 8),
                               Field(m, MQH_HEAD, 8), Field(m, MQH_FREE, 8), Field(m, MQH_NWAIT, 8),
                               Field(m, MQH_PID, 4), Field(m, MQH_SIGEV_NOTIFY, 4))
  {
    hide Decode;
    HeaderRead(m, MQ_MAXMSG, 8);
    HeaderRead(m, MQ_MSGSIZE, 8);
    HeaderRead(m, MQ_CURMSGS, 8);
    HeaderRead(m, MQH_HEAD, 8);
    HeaderRead(m, MQH_FREE, 8);
    HeaderRead(m, MQH_NWAIT, 8);
    HeaderRead(m, MQH_PID, 4);
    HeaderRead(m, MQH_SIGEV_NOTIFY, 4);
  }

  lemma FirstFree(m: Memory, msgs: seq<nat>, free: seq<nat>)
    requires Holds(m, msgs, free) && free != []
    ensures Records(m).slots[free[0]].next < Limit(8)
    ensures SIZEOF_MSG_HDR + HdrOf(m).msgsize <= Stride(HdrOf(m).msgsize) && HdrOf(m).msgsize <= LONG_MAX
  {
    MsgSizeIsLeastMultiple(HdrOf(m).msgsize, 0);
    var stride := Stride(HdrOf(m).msgsize);
    assert LinksOn(Records(m).slots, stride, free, 0);
    OffsetsFit(m, free[0]);
    if |free| > 1 { OffsetsFit(m, free[1]); }
    LongFits(Link(free, 1, stride));
  }

  /** Filling a free slot leaves the message list as it was. */
  lemma FilledKeepsMessages(o: View, stride: nat, msgs: seq<nat>, free: seq<nat>, m: Message)
    requires Rep(o, stride, msgs, free) && free != [] && |m.data| <= |o.slots[free[0]].area|
    ensures var s := o.slots[free[0]];
            var slots := o.slots[free[0] := Filled(s, s.next, m)];
            && Linked(slots, stride, o.hdr.head, msgs)
            && (forall j: nat | j < |msgs| :: slots[msgs[j]] == o.slots[msgs[j]])
  {
    var s := o.slots[free[0]];
    var slots := o.slots[free[0] := Filled(s, s.next, m)];
    forall j: nat | j < |msgs| ensures slots[msgs[j]] == o.slots[msgs[j]] && LinksOn(slots, stride, msgs, j) {
      NotShared(msgs, free, |o.slots|, j, 0);
      assert LinksOn(o.slots, stride, msgs, j);
    }
  }

  /** The file after the stores of mq_send holds the queue with `m` inserted. */
  lemma {:induction false} SentFile(m0: Memory, m1: Memory, n: nat, stride: nat, o: View, v: View,
                 msgs: seq<nat>, free: seq<nat>, i: nat, m: Message)
    requires Holds(m0, msgs, free) && free != [] && i <= |msgs| && |m1| == |m0|
    requires n == HdrOf(m0).maxmsg && stride == Stride(HdrOf(m0).msgsize) && o == Records(m0) && v == ViewOf(m1, n, stride)
    requires |m.data| <= o.hdr.msgsize && |m.data| <= |o.slots[free[0]].area|
    requires AtLeast(o.slots, msgs, i, m.prio) && (i < |msgs| ==> o.slots[msgs[i]].prio < m.prio)
    requires v == AfterSend(o, stride, msgs, free[0], i, m)
    ensures Valid(m1)
    ensures QueueOf(m1) == QueueOf(m0).(messages := Insert(QueueOf(m0).messages, m))
  {
    hide Decode, Walk, Insert, At, SlotOf;
    SendKeepsRep(o, stride, msgs, free, i, m);
    Rehold(m0, m1, Inserted(msgs, i, free[0]), free[1..]);
    QueueHeld(m0, msgs, free);
    QueueHeld(m1, Inserted(msgs, i, free[0]), free[1..]);
    InsertAt(MessagesOf(o.slots, msgs), m, i);
  }

  /** What mq_receive reads of the first message. */
  lemma {:induction false} FirstMessage(m: Memory, n: nat, stride: nat, o: View, msgs: seq<nat>, free: seq<nat>, index: nat)
    requires Holds(m, msgs, free) && msgs != []
    requires n == HdrOf(m).maxmsg && stride == Stride(HdrOf(m).msgsize) && o == Records(m) && index == At(msgs[0], stride)
    ensures index + SIZEOF_MSG_HDR + Field(m, index + MSG_LEN, 8) <= |m|
    ensures MessagesOf(o.slots, msgs)[0]
         == Message(Field(m, index + MSG_PRIO, 4), m[index + SIZEOF_MSG_HDR..index + SIZEOF_MSG_HDR + Field(m, index + MSG_LEN, 8)])
    ensures Field(m, index, 8) == o.slots[msgs[0]].next < Limit(8)
    ensures o.hdr.free <= LONG_MAX && o.hdr.curmsgs < Limit(8)
  {
    hide Decode;
    MsgSizeIsLeastMultiple(HdrOf(m).msgsize, 0);
    SlotRead(m, n, stride, msgs[0], index);
    var s, d := o.slots[msgs[0]], index + SIZEOF_MSG_HDR;
    SubRange(m, d, stride - SIZEOF_MSG_HDR, 0, s.len);
    assert s.area[..s.len] == s.area[0..0 + s.len];
    assert LinksOn(o.slots, stride, msgs, 0);
    if |msgs| > 1 { OffsetsFit(m, msgs[1]); }
    LongFits(Link(msgs, 1, stride));
    if free != [] { OffsetsFit(m, free[0]); }
    CountsAddUp(msgs, free, n);
    OffsetsFit(m, 0);
    LongFits(|msgs|);
  }

  /** The file after the stores of mq_receive holds the queue without its first message. */
  lemma ReceivedFile(m0: Memory, m1: Memory, n: nat, stride: nat, o: View, v: View, msgs: seq<nat>, free: seq<nat>)
    requires Holds(m0, msgs, free) && msgs != [] && QueueOf(m0).messages != [] && |m1| == |m0|
    requires n == HdrOf(m0).maxmsg && stride == Stride(HdrOf(m0).msgsize) && o == Records(m0) && v == ViewOf(m1, n, stride)
    requires v == AfterReceive(o, stride, msgs[0])
    ensures Valid(m1)
    ensures QueueOf(m1) == QueueOf(m0).(messages := QueueOf(m0).messages[1..])
  {
    hide Decode, Walk;
    ReceiveKeepsRep(o, stride, msgs, free);
    Rehold(m0, m1, msgs[1..], [msgs[0]] + free);
    QueueHeld(m0, msgs, free);
    QueueHeld(m1, msgs[1..], [msgs[0]] + free);
  }

  /** The attributes a caller of mq_open passes. */
  datatype Attr = Attr(maxmsg: int, msgsize: int)

  const DEFAULT_ATTR := Attr(128, 1024)

  /** mq_open for the process that creates the file.  null: EINVAL, and the file is unlinked. */
  method Create(attr: Option<Attr>, nonblock: bool) returns (q: MqInfo?)
    requires attr.Some? && attr.value.maxmsg > 0 && attr.value.msgsize > 0 ==>
               FileSize(attr.value.maxmsg, Stride(attr.value.msgsize)) <= LONG_MAX
    ensures q == null <==> attr.Some? && (attr.value.maxmsg <= 0 || attr.value.msgsize <= 0)
    ensures q != null ==>
              && fresh(q) && fresh(q.mqi_hdr) && q.mqi_magic == MQI_MAGIC && q.nonblock == nonblock
              && Valid(q.mqi_hdr[..])
              && var a := if attr.Some? then attr.value else DEFAULT_ATTR;
                 && (attr == None ==> a == Attr(128, 1024))
                 && QueueOf(q.mqi_hdr[..]) == Queue(a.maxmsg, a.msgsize, [], 0, 0, true)
  {
    hide Decode, Walk, HeaderOf, ViewOf, Rep;
    var a := DEFAULT_ATTR;
    if attr.Some? {
      if attr.value.maxmsg <= 0 || attr.value.msgsize <= 0 { return null; }
      a := attr.value;
    }
    SlotOffset(128, Stride(1024));
    var mptr := Initialise(a.maxmsg, a.msgsize);
    q := new MqInfo(mptr, nonblock);
  }

  /** Any sequence of calls on a newly created queue, with O_NONBLOCK: the file's queue and the
   *  replies are those of the plain sequence, so for every priority the messages that went in
   *  are those that came out followed by those still in the file, in the order of sending. */
  method RunCalls(maxmsg: nat, msgsize: nat, calls: seq<Call>) returns (q: MqInfo, replies: seq<Reply>)
    requires maxmsg > 0 && msgsize > 0 && FileSize(maxmsg, Stride(msgsize)) <= LONG_MAX
    requires forall k | 0 <= k < |calls| && calls[k].SendCall? :: calls[k].prio <= UINT_MAX
    ensures fresh(q) && fresh(q.mqi_hdr) && Valid(q.mqi_hdr[..])
    ensures (QueueOf(q.mqi_hdr[..]), replies) == Replay(Queue(maxmsg, msgsize, [], 0, 0, true), calls)
    ensures |replies| == |calls|
    ensures Accounts(AllSent(calls, replies), AllReceived(replies), QueueOf(q.mqi_hdr[..]).messages)
  {
    hide Decode, Walk, Insert, HeaderOf, ViewOf, Rep, FileSize, Stride, Accounts, SendEffect, ReceiveEffect,
      SendAnswer, ReceiveAnswer, AllSent, AllReceived;
    ghost var empty := Queue(maxmsg, msgsize, [], 0, 0, true);
    q := Create(Some(Attr(maxmsg, msgsize)), true);
    replies := [];
    var i := 0;
    while i < |calls|
      invariant 0 <= i <= |calls| && fresh(q) && fresh(q.mqi_hdr)
      invariant q.mqi_magic == MQI_MAGIC && q.nonblock && Valid(q.mqi_hdr[..])
      invariant (QueueOf(q.mqi_hdr[..]), replies) == Replay(empty, calls[..i])
    {
      ReplayAccounts(empty, calls[..i]);
      match calls[i] {
        case SendCall(data, prio) =>
          var r := q.Send(data, prio, false);
          replies := replies + [SendReply(r.value)];
        case ReceiveCall(maxlen) =>
          var r := q.Receive(maxlen, false);
          replies := replies + [ReceiveReply(r.value)];
      }
      assert calls[..i + 1][..i] == calls[..i];
      i := i + 1;
    }
    assert calls[..i] == calls;
    ReplayAccounts(empty, calls);
  }
}
