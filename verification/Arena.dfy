/** The mapped file of a message queue as bytes: a header and, behind it, one slot per message
 *  at a fixed stride (my_pxmsg_mmp/mqueue.h).
 *
 *  Sizes and offsets are those of a 64-bit Linux system: long and ssize_t of 8 bytes, int of 4,
 *  struct sigevent of 64, pthread_mutex_t of 40 and pthread_cond_t of 48. */
module Arena {
  import opened Basics
  import opened QueueSpec

  const SIZEOF_LONG: nat := 8
  const SIZEOF_INT: nat := 4
  const SIZEOF_MQ_HDR: nat := 216
  const SIZEOF_MSG_HDR: nat := 24

  // struct mq_hdr
  const MQ_MAXMSG: nat := 8
  const MQ_MSGSIZE: nat := 16
  const MQ_CURMSGS: nat := 24
  const MQH_HEAD: nat := 32
  const MQH_FREE: nat := 40
  const MQH_NWAIT: nat := 48
  const MQH_PID: nat := 56
  const MQH_SIGEV_NOTIFY: nat := 76

  // struct msg_hdr; msg_next is its first member
  const MSG_LEN: nat := 8
  const MSG_PRIO: nat := 16

  /** MSGSIZE of mqueue.h. */
  function MsgSize(i: nat): nat {
    ((i + SIZEOF_LONG - 1) / SIZEOF_LONG) * SIZEOF_LONG
  }

  function Stride(msgsize: nat): nat { SIZEOF_MSG_HDR + MsgSize(msgsize) }

  /** The offset of slot `k`, reached from the first slot by adding strides. */
  function At(k: nat, stride: nat): (a: nat)
    ensures SIZEOF_MQ_HDR <= a
  {
    if k == 0 then SIZEOF_MQ_HDR else At(k - 1, stride) + stride
  }

  /** The end of the last slot. */
  function FileSize(maxmsg: nat, stride: nat): nat { At(maxmsg, stride) }

  // ----- layout

  /** MSGSIZE rounds up to the least multiple of the word size. */
  lemma MsgSizeIsLeastMultiple(i: nat, m: nat)
    ensures MsgSize(i) % SIZEOF_LONG == 0 && i <= MsgSize(i)
    ensures m % SIZEOF_LONG == 0 && i <= m ==> MsgSize(i) <= m
  {
  }

  lemma {:induction false} SlotBefore(i: nat, j: nat, stride: nat)
    requires i < j
    ensures At(i, stride) + stride <= At(j, stride)
  {
    if i < j - 1 { SlotBefore(i, j - 1, stride); }
  }

  lemma {:induction false} SlotOffset(k: nat, stride: nat)
    ensures At(k, stride) == SIZEOF_MQ_HDR + k * stride
  {
    if k > 0 {
      SlotOffset(k - 1, stride);
      Distribute(k, stride);
    }
  }

  lemma Distribute(k: int, s: int)
    ensures k * s == (k - 1) * s + s
  {
  }

  lemma {:induction false} SlotAligned(k: nat, stride: nat)
    requires stride % SIZEOF_LONG == 0
    ensures At(k, stride) % SIZEOF_LONG == 0
  {
    if k > 0 { SlotAligned(k - 1, stride); }
  }

  /** The file size mq_open computes ends the last slot; slots are aligned, inside the file and
   *  pairwise disjoint, and each has room for its header and msgsize bytes. */
  lemma {:induction false} SlotLayout(i: nat, j: nat, maxmsg: nat, msgsize: nat)
    requires i < maxmsg && j < maxmsg
    ensures var stride := Stride(msgsize);
            && FileSize(maxmsg, stride) == SIZEOF_MQ_HDR + maxmsg * (SIZEOF_MSG_HDR + MsgSize(msgsize))
            && At(i, stride) == SIZEOF_MQ_HDR + i * (SIZEOF_MSG_HDR + MsgSize(msgsize))
            && At(i, stride) % SIZEOF_LONG == 0
            && SIZEOF_MQ_HDR <= At(i, stride) && At(i, stride) + stride <= FileSize(maxmsg, stride)
            && SIZEOF_MSG_HDR + msgsize <= stride
            && (i != j ==> At(i, stride) + stride <= At(j, stride) || At(j, stride) + stride <= At(i, stride))
  {
    var stride := Stride(msgsize);
    MsgSizeIsLeastMultiple(msgsize, 0);
    SlotOffset(maxmsg, stride);
    SlotOffset(i, stride);
    SlotAligned(i, stride);
    SlotBefore(i, maxmsg, stride);
    SlotsApart(i, j, stride);
  }

  lemma {:induction false} SlotsApart(i: nat, j: nat, stride: nat)
    ensures i != j ==> At(i, stride) + stride <= At(j, stride) || At(j, stride) + stride <= At(i, stride)
  {
    if i < j { SlotBefore(i, j, stride); }
    if j < i { SlotBefore(j, i, stride); }
  }

  // ----- numbers in memory

  type Memory = seq<Byte>

  /** Little-endian. */
  function Encode(v: nat, n: nat): (b: Memory)
    ensures |b| == n
  {
    if n == 0 then [] else [v % 256] + Encode(v / 256, n - 1)
  }

  function Decode(b: Memory): nat {
    if b == [] then 0 else b[0] + 256 * Decode(b[1..])
  }

  function Limit(n: nat): nat {
    if n == 0 then 1 else 256 * Limit(n - 1)
  }

  lemma {:induction false} EncodeDecode(v: nat, n: nat)
    requires v < Limit(n)
    ensures Decode(Encode(v, n)) == v
  {
    if n > 0 { EncodeDecode(v / 256, n - 1); }
  }

  lemma LongLimit(v: nat)
    ensures v < 0x1_0000_0000 <==> v < Limit(SIZEOF_INT)
    ensures v < 0x1_0000_0000_0000_0000 <==> v < Limit(SIZEOF_LONG)
  {
    assert Limit(1) == 256 && Limit(2) == 256 * Limit(1) && Limit(3) == 256 * Limit(2);
    assert Limit(4) == 256 * Limit(3) && Limit(5) == 256 * Limit(4);
    assert Limit(6) == 256 * Limit(5) && Limit(7) == 256 * Limit(6) && Limit(8) == 256 * Limit(7);
  }

  /** `m` with the bytes `b` copied to address `a`. */
  function Patch(m: Memory, a: nat, b: Memory): (r: Memory)
    requires a + |b| <= |m|
    ensures |r| == |m|
    ensures r[a..a + |b|] == b
    ensures r[..a] == m[..a] && r[a + |b|..] == m[a + |b|..]
  {
    m[..a] + b + m[a + |b|..]
  }

  /** Bytes outside the patched range keep their values. */
  lemma PatchElsewhere(m: Memory, a: nat, b: Memory, c: nat, n: nat)
    requires a + |b| <= |m| && c + n <= |m|
    requires c + n <= a || a + |b| <= c
    ensures Patch(m, a, b)[c..c + n] == m[c..c + n]
  {
    var r := Patch(m, a, b);
    if c + n <= a {
      assert r[c..c + n] == r[..a][c..c + n] && m[c..c + n] == m[..a][c..c + n];
    } else {
      var e := a + |b|;
      assert r[c..c + n] == r[e..][c - e..c + n - e] && m[c..c + n] == m[e..][c - e..c + n - e];
    }
  }

  // ----- the arena as header and slots

  function HeaderBytes(m: Memory): Memory
    requires SIZEOF_MQ_HDR <= |m|
  {
    m[..SIZEOF_MQ_HDR]
  }

  /** The bytes of each slot, header and payload. */
  function SlotBytes(m: Memory, n: nat, stride: nat): (slots: seq<Memory>)
    requires |m| == FileSize(n, stride)
    ensures |slots| == n
    ensures forall k: nat {:trigger slots[k]} | k < n ::
              At(k, stride) + stride <= |m| && slots[k] == m[At(k, stride)..At(k, stride) + stride]
  {
    assert forall k: nat | k < n :: At(k, stride) + stride <= |m| by {
      forall k: nat | k < n ensures At(k, stride) + stride <= |m| { SlotBefore(k, n, stride); }
    }
    seq(n, k requires 0 <= k < n => m[At(k, stride)..At(k, stride) + stride])
  }

  /** A store that misses slot `j` keeps its bytes. */
  lemma {:induction false} StoreMisses(m: Memory, n: nat, stride: nat, a: nat, b: Memory, j: nat)
    requires |m| == FileSize(n, stride) && a + |b| <= |m| && j < n
    requires a + |b| <= At(j, stride) || At(j, stride) + stride <= a
    ensures SlotBytes(Patch(m, a, b), n, stride)[j] == SlotBytes(m, n, stride)[j]
  {
    SlotBefore(j, n, stride);
    PatchElsewhere(m, a, b, At(j, stride), stride);
  }

  /** A store into the header changes no slot ... */
  lemma HeaderStore(m: Memory, n: nat, stride: nat, a: nat, b: Memory)
    requires |m| == FileSize(n, stride) && a + |b| <= SIZEOF_MQ_HDR
    ensures HeaderBytes(Patch(m, a, b)) == Patch(HeaderBytes(m), a, b)
    ensures SlotBytes(Patch(m, a, b), n, stride) == SlotBytes(m, n, stride)
  {
    var v, w := SlotBytes(m, n, stride), SlotBytes(Patch(m, a, b), n, stride);
    forall j: nat | j < n ensures w[j] == v[j] { StoreMisses(m, n, stride, a, b, j); }
  }

  lemma PatchWithin(m: Memory, c: nat, len: nat, a: nat, b: Memory)
    requires c <= a && a + |b| <= c + len <= |m|
    ensures Patch(m, a, b)[c..c + len] == Patch(m[c..c + len], a - c, b)
  {
  }

  /** ... and a store into slot `k` changes neither the header nor another slot. */
  lemma {:induction false} SlotStore(m: Memory, n: nat, stride: nat, k: nat, f: nat, a: nat, b: Memory)
    requires |m| == FileSize(n, stride) && k < n && f + |b| <= stride && a == At(k, stride) + f
    ensures a + |b| <= |m|
    ensures HeaderBytes(Patch(m, a, b)) == HeaderBytes(m)
    ensures SlotBytes(Patch(m, a, b), n, stride) == SlotBytes(m, n, stride)[k := Patch(SlotBytes(m, n, stride)[k], f, b)]
  {
    SlotBefore(k, n, stride);
    PatchElsewhere(m, a, b, 0, SIZEOF_MQ_HDR);
    PatchWithin(m, At(k, stride), stride, a, b);
    var v, w := SlotBytes(m, n, stride), SlotBytes(Patch(m, a, b), n, stride);
    forall j: nat | j < n && j != k ensures w[j] == v[j] {
      SlotsApart(j, k, stride);
      StoreMisses(m, n, stride, a, b, j);
    }
  }
}
