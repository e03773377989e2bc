/** Who may call mq_open() at the same time (my_pxmsg_mmp/mq_open.c): the exclusive create, the
 *  user-execute bit that stays on until the file is initialised, and the polling for it.
 *
 *  A step is one open(), the stores between two of them, one stat(), one mmap(), one fchmod() or
 *  one unlink(); no such call fails but for the reasons the code itself tests for. */
module QueueOpening {
  import opened Basics
  import opened Sums
  import opened QueueSpec
  import opened Arena
  import opened QueueLists
  import opened MessageQueue

  const MAX_TRIES := 10

  /** The arguments of a call: O_CREAT, O_EXCL and the attributes; `image` is what its
   *  initialisation, should it come to that, stores in the file. */
  datatype Opener = Opener(creat: bool, excl: bool, attr: Option<Attr>, image: Memory) {
    function Attributes(): Attr { if attr.Some? then attr.value else DEFAULT_ATTR }

    /** The call that creates the file with such attributes fails with EINVAL. */
    predicate Invalid() { attr.Some? && (attr.value.maxmsg <= 0 || attr.value.msgsize <= 0) }

    predicate MayFindIt() { !(creat && excl) }

    function Size(): nat {
      if Invalid() then 0 else FileSize(Attributes().maxmsg, Stride(Attributes().msgsize))
    }
  }

  /** An initialised file of this opener's making: see MessageQueue.Create. */
  ghost predicate Made(o: Opener, bytes: Memory) {
    && |bytes| == o.Size() && Valid(bytes)
    && HdrOf(bytes).maxmsg == o.Attributes().maxmsg && HdrOf(bytes).msgsize == o.Attributes().msgsize
  }

  ghost predicate Openers(c: seq<Opener>) {
    forall t: nat | t < |c| && c[t].creat && !c[t].Invalid() :: Made(c[t], c[t].image)
  }

  /** Every call that may create a file has an image to store in it. */
  method ImageFor(creat: bool, excl: bool, attr: Option<Attr>) returns (o: Opener)
    requires var a := if attr.Some? then attr.value else DEFAULT_ATTR;
             a.maxmsg > 0 && a.msgsize > 0 && FileSize(a.maxmsg, Stride(a.msgsize)) <= LONG_MAX
    ensures o.creat == creat && o.excl == excl && o.attr == attr && !o.Invalid() && Made(o, o.image)
  {
    hide Decode, Walk, ViewOf, Rep;
    var a := if attr.Some? then attr.value else DEFAULT_ATTR;
    var file := Initialise(a.maxmsg, a.msgsize);
    SlotOffset(a.maxmsg, Stride(a.msgsize));
    o := Opener(creat, excl, attr, file[..]);
  }

  datatype Inode = Inode(creator: nat, xusr: bool, bytes: Memory)

  /** Where a call stands, with its descriptor's inode.  Opened(m, size): has returned a queue
   *  that maps `size` bytes of inode `m`. */
  datatype Pc =
    | Again | Created(m: nat) | Extended(m: nat) | Complete(m: nat)
    | Exists | Poll(m: nat, i: nat) | Map(m: nat, size: nat)
    | Opened(m: nat, size: nat) | Failed

  /** `name`: the inode that the path names. */
  datatype State = State(name: Option<nat>, inodes: seq<Inode>, pcs: seq<Pc>)

  datatype Step = Go(t: nat) | Use(t: nat, bytes: Memory)

  ghost function Init(c: seq<Opener>): State { State(None, [], seq(|c|, _ => Again)) }

  /** `Use`: mq_send() or mq_receive() through a descriptor; they keep what MessageQueue says. */
  ghost predicate Enabled(c: seq<Opener>, s: State, step: Step) {
    && step.t < |s.pcs| && |s.pcs| == |c|
    && match step
       case Go(t) =>
         (match s.pcs[t]
          case Opened(_, _) => false
          case Failed => false
          case Created(m) => m < |s.inodes|
          case Extended(m) => m < |s.inodes|
          case Complete(m) => m < |s.inodes|
          case _ => s.name.Some? ==> s.name.value < |s.inodes|)
       case Use(t, bytes) =>
         && s.pcs[t].Opened? && s.pcs[t].m < |s.inodes|
         && var o := s.inodes[s.pcs[t].m];
            && |bytes| == |o.bytes|
            && (o.creator < |c| && Made(c[o.creator], o.bytes) ==> Made(c[o.creator], bytes))
  }

  function StepPoll(c: Opener, s: State, m: nat, i: nat): Pc
    requires s.name.Some? ==> s.name.value < |s.inodes|
  {
    match s.name
    case None => if c.creat then Again else Failed
    case Some(n) =>
      if s.inodes[n].xusr then (if i + 1 < MAX_TRIES then Poll(m, i + 1) else Failed)
      else Map(m, |s.inodes[n].bytes|)
  }

  function Zeros(n: nat): Memory { seq(n, _ => 0) }

  ghost function Apply(c: seq<Opener>, s: State, step: Step): State
    requires Enabled(c, s, step)
  {
    var t, o := step.t, c[step.t];
    match step
    case Use(_, bytes) =>
      var m := s.pcs[t].m;
      s.(inodes := s.inodes[m := s.inodes[m].(bytes := bytes)])
    case Go(_) =>
      match s.pcs[t]
      case Again =>
        if o.creat && s.name == None then
          State(Some(|s.inodes|), s.inodes + [Inode(t, true, [])], s.pcs[t := Created(|s.inodes|)])
        else s.(pcs := s.pcs[t := if o.creat && o.excl then Failed else Exists])
      case Created(m) =>
        if o.Invalid() then s.(name := None, pcs := s.pcs[t := Failed])
        else s.(inodes := s.inodes[m := s.inodes[m].(bytes := Zeros(o.Size()))], pcs := s.pcs[t := Extended(m)])
      case Extended(m) =>
        s.(inodes := s.inodes[m := s.inodes[m].(bytes := o.image)], pcs := s.pcs[t := Complete(m)])
      case Complete(m) =>
        s.(inodes := s.inodes[m := s.inodes[m].(xusr := false)], pcs := s.pcs[t := Opened(m, o.Size())])
      case Exists =>
        s.(pcs := s.pcs[t := match s.name
                             case None => if o.creat then Again else Failed
                             case Some(m) => Poll(m, 0)])
      case Poll(m, i) => s.(pcs := s.pcs[t := StepPoll(o, s, m, i)])
      case Map(m, size) => s.(pcs := s.pcs[t := Opened(m, size)])
  }

  ghost predicate Legal(c: seq<Opener>, s: State, run: seq<Step>)
    decreases |run|
  {
    run == [] || (Enabled(c, s, run[0]) && Legal(c, Apply(c, s, run[0]), run[1..]))
  }

  ghost function Exec(c: seq<Opener>, s: State, run: seq<Step>): State
    requires Legal(c, s, run)
    decreases |run|
  {
    if run == [] then s else Exec(c, Apply(c, s, run[0]), run[1..])
  }

  // ----- invariant

  predicate Creating(pc: Pc) { pc.Created? || pc.Extended? || pc.Complete? }
  predicate Looking(pc: Pc) { pc.Again? || pc.Exists? || pc.Poll? || pc.Map? }

  /** Only the last inode can have the name; the others were removed by their creators. */
  ghost predicate Names(c: seq<Opener>, s: State) {
    && (s.name.Some? ==> s.name.value == |s.inodes| - 1)
    && (forall m: nat, n: nat | m < n < |s.inodes| :: s.inodes[m].creator != s.inodes[n].creator)
    && (forall m: nat | m < |s.inodes| ::
          && s.inodes[m].creator < |c| && c[s.inodes[m].creator].creat
          && (s.name != Some(m) ==> c[s.inodes[m].creator].Invalid())
          && (!s.inodes[m].xusr ==> !c[s.inodes[m].creator].Invalid() && Made(c[s.inodes[m].creator], s.inodes[m].bytes)))
  }

  /** Where each call stands, apart from what it has mapped. */
  ghost predicate Place(c: seq<Opener>, s: State, t: nat)
    requires t < |s.pcs| == |c|
  {
    var pc := s.pcs[t];
    && (Creating(pc) ==>
          && pc.m < |s.inodes| && s.name == Some(pc.m) && s.inodes[pc.m].creator == t && s.inodes[pc.m].xusr
          && (!pc.Created? ==> !c[t].Invalid())
          && (pc.Complete? ==> Made(c[t], s.inodes[pc.m].bytes)))
    && (Looking(pc) ==> forall m: nat | m < |s.inodes| :: s.inodes[m].creator != t)
    && (pc.Exists? || pc.Poll? || pc.Map? ==> c[t].MayFindIt())
    && (pc.Poll? || pc.Map? || pc.Opened? ==> pc.m < |s.inodes|)
    && (pc.Poll? ==> pc.i < MAX_TRIES)
  }

  ghost predicate Inv(c: seq<Opener>, s: State) {
    && |s.pcs| == |c| && Openers(c) && Names(c, s)
    && forall t: nat | t < |c| :: Place(c, s, t)
  }

  lemma InitInv(c: seq<Opener>)
    requires Openers(c)
    ensures Inv(c, Init(c))
  {
  }

  lemma NamesKept(c: seq<Opener>, s: State, step: Step)
    requires Inv(c, s) && Enabled(c, s, step)
    ensures Names(c, Apply(c, s, step))
  {
    hide Made, StepPoll;
    assert Place(c, s, step.t);
  }

  /** The call that makes the step ... */
  lemma OwnPlaceKept(c: seq<Opener>, s: State, step: Step)
    requires Inv(c, s) && Enabled(c, s, step)
    ensures Place(c, Apply(c, s, step), step.t)
  {
    hide Made;
    assert Place(c, s, step.t);
  }

  /** ... and the others. */
  lemma PlaceKept(c: seq<Opener>, s: State, step: Step, t: nat)
    requires Inv(c, s) && Enabled(c, s, step) && t < |c|
    ensures Place(c, Apply(c, s, step), t)
  {
    hide Made, StepPoll;
    if t == step.t {
      OwnPlaceKept(c, s, step);
    } else {
      assert Place(c, s, t) && Place(c, s, step.t);
    }
  }

  lemma StepInv(c: seq<Opener>, s: State, step: Step)
    requires Inv(c, s) && Enabled(c, s, step)
    ensures Inv(c, Apply(c, s, step))
  {
    hide Made, Names, Place;
    NamesKept(c, s, step);
    forall t: nat | t < |c| ensures Place(c, Apply(c, s, step), t) { PlaceKept(c, s, step, t); }
  }

  lemma {:induction false} RunInv(c: seq<Opener>, s: State, run: seq<Step>)
    requires Inv(c, s) && Legal(c, s, run)
    ensures Inv(c, Exec(c, s, run))
    decreases |run|
  {
    hide Inv, Enabled, Apply;
    if run != [] {
      StepInv(c, s, run[0]);
      RunInv(c, Apply(c, s, run[0]), run[1..]);
    }
  }

  // ----- the descriptors

  /** One call can create a file that it has to remove again, another one can replace that file,
   *  and a third one can have found the first. */
  ghost predicate Risk(c: seq<Opener>) {
    exists i: nat, j: nat, k: nat :: RiskOf(c, i, j, k)
  }

  ghost predicate RiskOf(c: seq<Opener>, i: nat, j: nat, k: nat) {
    && i < |c| && j < |c| && k < |c| && i != j && j != k
    && c[i].creat && c[i].Invalid() && c[k].creat && !c[k].Invalid() && c[j].MayFindIt()
  }

  ghost predicate MapsAll(s: State, t: nat)
    requires t < |s.pcs|
  {
    var pc := s.pcs[t];
    pc.Map? || pc.Opened? ==>
      pc.m < |s.inodes| && !s.inodes[pc.m].xusr && pc.size == |s.inodes[pc.m].bytes|
  }

  ghost predicate AllMapAll(s: State) {
    forall t: nat | t < |s.pcs| :: MapsAll(s, t)
  }

  lemma NothingMapped(c: seq<Opener>)
    ensures AllMapAll(Init(c))
  {
  }

  lemma MadeSize(o: Opener, bytes: Memory)
    requires Made(o, bytes)
    ensures |bytes| == o.Size()
  {
  }

  lemma MapsAllKept(c: seq<Opener>, s: State, step: Step, t: nat)
    requires Inv(c, s) && Enabled(c, s, step) && t < |c| && AllMapAll(s) && !Risk(c)
    ensures t < |Apply(c, s, step).pcs| && MapsAll(Apply(c, s, step), t)
  {
    hide Made;
    assert MapsAll(s, t) && Place(c, s, t) && Place(c, s, step.t);
    if step.Go? && s.pcs[step.t].Complete? { MadeSize(c[step.t], s.inodes[s.pcs[step.t].m].bytes); }
    if step.Go? && s.pcs[step.t].Poll? && s.name.Some? {
      var m, n := s.pcs[step.t].m, s.name.value;
      assert m == n || s.inodes[n].xusr || RiskOf(c, s.inodes[m].creator, step.t, s.inodes[n].creator);
    }
  }

  lemma {:induction false} RunMapsAll(c: seq<Opener>, s: State, run: seq<Step>)
    requires Inv(c, s) && AllMapAll(s) && !Risk(c) && Legal(c, s, run)
    ensures AllMapAll(Exec(c, s, run))
    decreases |run|
  {
    hide Inv, Enabled, Apply, MapsAll, Risk;
    if run != [] {
      var r := Apply(c, s, run[0]);
      StepInv(c, s, run[0]);
      assert |r.pcs| == |c| == |s.pcs| by { SamePcs(c, s, run[0]); }
      forall t: nat | t < |r.pcs| ensures MapsAll(r, t) { MapsAllKept(c, s, run[0], t); }
      RunMapsAll(c, r, run[1..]);
    }
  }

  lemma SamePcs(c: seq<Opener>, s: State, step: Step)
    requires Enabled(c, s, step)
    ensures |Apply(c, s, step).pcs| == |s.pcs| == |c|
  {
  }

  /** A returned descriptor maps a complete file to its end, of the size its creator computed. */
  ghost predicate Good(c: seq<Opener>, s: State, t: nat)
    requires t < |s.pcs|
  {
    s.pcs[t].Opened? ==>
      && s.pcs[t].m < |s.inodes|
      && var file := s.inodes[s.pcs[t].m];
         && file.creator < |c| && Made(c[file.creator], file.bytes)
         && s.pcs[t].size == |file.bytes| == c[file.creator].Size()
  }

  ghost predicate AllGood(c: seq<Opener>, s: State) {
    forall t: nat | t < |s.pcs| :: Good(c, s, t)
  }

  ghost predicate AlwaysGood(c: seq<Opener>) {
    forall run | Legal(c, Init(c), run) :: AllGood(c, Exec(c, Init(c), run))
  }

  lemma GoodWhenMapped(c: seq<Opener>, s: State)
    requires Inv(c, s) && AllMapAll(s)
    ensures AllGood(c, s) && forall t: nat | t < |c| && s.pcs[t].Opened? :: s.name == Some(s.pcs[t].m)
  {
    hide Made;
    forall t: nat | t < |s.pcs| ensures Good(c, s, t) && (s.pcs[t].Opened? ==> s.name == Some(s.pcs[t].m)) {
      assert MapsAll(s, t);
      if s.pcs[t].Opened? { MadeSize(c[s.inodes[s.pcs[t].m].creator], s.inodes[s.pcs[t].m].bytes); }
    }
  }

  /** In every interleaving of any number of calls: at most one call initialises a file that
   *  stays, and unless there is the risk all descriptors are good ones of that same file. */
  lemma {:induction false} OneQueue(c: seq<Opener>, run: seq<Step>)
    requires Openers(c) && Legal(c, Init(c), run)
    ensures var s := Exec(c, Init(c), run);
            && |s.pcs| == |c|
            && (forall m: nat | m < |s.inodes| :: s.inodes[m].creator < |c|)
            && (forall m: nat | m < |s.inodes| - 1 :: c[s.inodes[m].creator].Invalid())
            && (forall m: nat | m < |s.inodes| && !c[s.inodes[m].creator].Invalid() :: s.name == Some(m))
            && (!Risk(c) ==>
                  && AllGood(c, s)
                  && forall t: nat | t < |c| && s.pcs[t].Opened? :: s.name == Some(s.pcs[t].m))
  {
    hide Made;
    InitInv(c);
    RunInv(c, Init(c), run);
    var s := Exec(c, Init(c), run);
    if !Risk(c) {
      RunMapsAll(c, Init(c), run);
      GoodWhenMapped(c, s);
    }
  }

  lemma {:induction false} RunAppend(c: seq<Opener>, s: State, a: seq<Step>, b: seq<Step>)
    requires Legal(c, s, a) && Legal(c, Exec(c, s, a), b)
    ensures Legal(c, s, a + b) && Exec(c, s, a + b) == Exec(c, Exec(c, s, a), b)
    decreases |a|
  {
    hide Enabled, Apply;
    if a == [] {
      assert a + b == b;
    } else {
      assert (a + b)[1..] == a[1..] + b;
      RunAppend(c, Apply(c, s, a[0]), a[1..], b);
    }
  }

  lemma {:induction false} OneStep(c: seq<Opener>, s: State, x: Step)
    requires Enabled(c, s, x)
    ensures Legal(c, s, [x]) && Exec(c, s, [x]) == Apply(c, s, x)
  {
    hide Enabled, Apply;
    var r, one := Apply(c, s, x), [x];
    assert one[1..] == [];
    assert Legal(c, r, []) && Exec(c, r, []) == r;
  }

  lemma {:induction false} TwoSteps(c: seq<Opener>, s: State, x: Step, y: Step)
    requires Enabled(c, s, x) && Enabled(c, Apply(c, s, x), y)
    ensures Legal(c, s, [x, y]) && Exec(c, s, [x, y]) == Apply(c, Apply(c, s, x), y)
  {
    hide Enabled, Apply;
    var two := [x, y];
    assert two[1..] == [y];
    OneStep(c, Apply(c, s, x), y);
  }

  /** A call creates the file and publishes it, undisturbed. */
  lemma Publish(c: seq<Opener>, s: State, k: nat) returns (run: seq<Step>)
    requires k < |c| == |s.pcs| && s.name == None && s.pcs[k].Again? && c[k].creat && !c[k].Invalid()
    ensures Legal(c, s, run)
    ensures Exec(c, s, run) == State(Some(|s.inodes|), s.inodes + [Inode(k, false, c[k].image)],
                                     s.pcs[k := Opened(|s.inodes|, c[k].Size())])
  {
    var a := Apply(c, s, Go(k));
    var b := Apply(c, a, Go(k));
    TwoSteps(c, s, Go(k), Go(k));
    var d := Apply(c, b, Go(k));
    var e := Apply(c, d, Go(k));
    TwoSteps(c, b, Go(k), Go(k));
    RunAppend(c, s, [Go(k), Go(k)], [Go(k), Go(k)]);
    run := [Go(k), Go(k)] + [Go(k), Go(k)];
    assert e.inodes == s.inodes + [Inode(k, false, c[k].image)];
  }

  /** Call `j` opens the file of call `i`, which then fails and removes it. */
  lemma FoundTooSoon(c: seq<Opener>, i: nat, j: nat) returns (run: seq<Step>)
    requires i < |c| && j < |c| && i != j && c[i].creat && c[i].Invalid() && c[j].MayFindIt()
    ensures Legal(c, Init(c), run)
    ensures Exec(c, Init(c), run)
         == State(None, [Inode(i, true, [])], Init(c).pcs[i := Failed][j := Poll(0, 0)])
  {
    var s0 := Init(c);
    var s1 := Apply(c, s0, Go(i));
    var s2 := Apply(c, s1, Go(j));
    var s3 := Apply(c, s2, Go(j));
    var s4 := Apply(c, s3, Go(i));
    TwoSteps(c, s0, Go(i), Go(j));
    TwoSteps(c, s2, Go(j), Go(i));
    RunAppend(c, s0, [Go(i), Go(j)], [Go(j), Go(i)]);
    run := [Go(i), Go(j)] + [Go(j), Go(i)];
    assert s4.pcs == s0.pcs[i := Failed][j := Poll(0, 0)];
  }

  /** ... and before `j` looks at the name again, call `k` has created and published another. */
  lemma Overtaken(c: seq<Opener>, i: nat, j: nat, k: nat) returns (run: seq<Step>)
    requires RiskOf(c, i, j, k)
    ensures Legal(c, Init(c), run) && !AllGood(c, Exec(c, Init(c), run))
  {
    var first := FoundTooSoon(c, i, j);
    var s4 := Exec(c, Init(c), first);
    var mid := Publish(c, s4, k);
    var s8 := Exec(c, s4, mid);
    var s9 := Apply(c, s8, Go(j));
    var s10 := Apply(c, s9, Go(j));
    TwoSteps(c, s8, Go(j), Go(j));
    var last := [Go(j), Go(j)];
    RunAppend(c, s4, mid, last);
    RunAppend(c, Init(c), first, mid + last);
    run := first + (mid + last);
    assert s10.pcs[j].Opened? && s10.inodes[0].bytes == [];
    assert !Good(c, s10, j);
  }

  /** mq_open() hands out nothing but complete queues, whoever else calls it, exactly when there
   *  are no three such calls. */
  lemma AlwaysGoodIffNoRisk(c: seq<Opener>)
    requires Openers(c)
    ensures AlwaysGood(c) <==> !Risk(c)
  {
    if Risk(c) {
      var i: nat, j: nat, k: nat :| RiskOf(c, i, j, k);
      var run := Overtaken(c, i, j, k);
    } else {
      forall run | Legal(c, Init(c), run) ensures AllGood(c, Exec(c, Init(c), run)) { OneQueue(c, run); }
    }
  }

  // ----- every call ends

  /** How far a call is from its end.  A call that may create is near it while the name is free. */
  function Rank(o: Opener, name: Option<nat>, pc: Pc): int {
    match pc
    case Again => if o.creat && name == None then 2 else 14
    case Exists => 13
    case Poll(_, i) => 2 + MAX_TRIES - i
    case Map(_, _) => 1
    case Created(_) => 4
    case Extended(_) => 3
    case Complete(_) => 2
    case Opened(_, _) => 0
    case Failed => 0
  }

  function Ranks(c: seq<Opener>, s: State): seq<int>
    requires |s.pcs| == |c|
  {
    seq(|c|, t requires 0 <= t < |c| => Rank(c[t], s.name, s.pcs[t]))
  }

  function Same(n: int): int { n }

  /** Each call creates at most one file, and only a new file sends others back. */
  ghost function Remaining(c: seq<Opener>, s: State): int
    requires |s.pcs| == |c|
  {
    15 * |c| * (|c| - |s.inodes|) + Sum(Ranks(c, s), Same)
  }

  lemma FilesBounded(c: seq<Opener>, s: State)
    requires Inv(c, s)
    ensures |s.inodes| <= |c|
  {
    var creators := seq(|s.inodes|, m requires 0 <= m < |s.inodes| => s.inodes[m].creator);
    DistinctBelow(creators, |c|);
  }

  lemma RanksNonNegative(c: seq<Opener>, s: State)
    requires Inv(c, s)
    ensures 0 <= Sum(Ranks(c, s), Same) && 0 <= Remaining(c, s)
  {
    var ranks := Ranks(c, s);
    forall k | 0 <= k < |ranks| ensures 0 <= Same(ranks[k]) { assert Place(c, s, k); }
    SumNonNegative(ranks, Same);
    FilesBounded(c, s);
    Product(|c|, |c| - |s.inodes|);
  }

  lemma Product(n: nat, k: nat)
    ensures 0 <= 15 * n * k && 15 * n * (k + 1) == 15 * n * k + 15 * n
  {
  }

  /** A step that creates no file brings its own call nearer to the end and no other further away. */
  lemma RankShrinks(c: seq<Opener>, s: State, t: nat, k: nat)
    requires Inv(c, s) && Enabled(c, s, Go(t)) && k < |c|
    requires |Apply(c, s, Go(t)).inodes| == |s.inodes|
    ensures var r := Apply(c, s, Go(t));
            && |r.pcs| == |c|
            && Rank(c[k], r.name, r.pcs[k]) <= Rank(c[k], s.name, s.pcs[k])
            && Rank(c[t], r.name, r.pcs[t]) < Rank(c[t], s.name, s.pcs[t])
  {
    hide Made;
    assert Place(c, s, t) && Place(c, s, k);
  }

  lemma RemainingDecreases(c: seq<Opener>, s: State, t: nat)
    requires Inv(c, s) && Enabled(c, s, Go(t))
    ensures |Apply(c, s, Go(t)).pcs| == |c|
    ensures 0 <= Remaining(c, Apply(c, s, Go(t))) < Remaining(c, s)
  {
    hide Made, Sum;
    var r := Apply(c, s, Go(t));
    SamePcs(c, s, Go(t));
    StepInv(c, s, Go(t));
    RanksNonNegative(c, r);
    var before, after := Ranks(c, s), Ranks(c, r);
    if |r.inodes| == |s.inodes| {
      forall k | 0 <= k < |c| ensures Same(after[k]) <= Same(before[k]) && Same(after[t]) < Same(before[t]) {
        RankShrinks(c, s, t, k);
      }
      SumShrinks(before, after, Same, t);
    } else {
      assert forall k | 0 <= k < |c| :: Same(after[k]) <= Same(before[k]) + 12;
      SumGrowth(before, after, Same, 12);
      FilesBounded(c, r);
      Product(|c|, |c| - |r.inodes|);
    }
  }

  lemma UseKeepsRemaining(c: seq<Opener>, s: State, step: Step)
    requires Enabled(c, s, step) && step.Use?
    ensures |Apply(c, s, step).pcs| == |c| && Remaining(c, Apply(c, s, step)) == Remaining(c, s)
  {
    hide Made, Sum;
    assert Ranks(c, Apply(c, s, step)) == Ranks(c, s);
  }

  /** How many steps of a run are steps of mq_open itself. */
  function Calls(run: seq<Step>): nat {
    if run == [] then 0 else (if run[0].Go? then 1 else 0) + Calls(run[1..])
  }

  lemma {:induction false} RunBounded(c: seq<Opener>, s: State, run: seq<Step>)
    requires Inv(c, s) && Legal(c, s, run)
    ensures Calls(run) <= Remaining(c, s)
    decreases |run|
  {
    hide Made, Names, Place, Sum;
    RanksNonNegative(c, s);
    if run != [] {
      hide Enabled, Apply, Remaining;
      StepInv(c, s, run[0]);
      match run[0] {
        case Go(t) => RemainingDecreases(c, s, t);
        case Use(_, _) => UseKeepsRemaining(c, s, run[0]);
      }
      RunBounded(c, Apply(c, s, run[0]), run[1..]);
    }
  }

  predicate Ended(pc: Pc) { pc.Opened? || pc.Failed? }

  lemma NotEndedGoesOn(c: seq<Opener>, s: State, t: nat)
    requires Inv(c, s) && t < |c|
    ensures Enabled(c, s, Go(t)) <==> !Ended(s.pcs[t])
  {
    hide Made;
    assert Place(c, s, t);
  }

  /** However the calls and the users of the returned descriptors are interleaved, the calls take
   *  a bounded number of steps, the retry loop included, and when no call can go on each has
   *  returned a descriptor or failed. */
  lemma {:induction false} EveryCallEnds(c: seq<Opener>, run: seq<Step>)
    requires Openers(c) && Legal(c, Init(c), run)
    ensures Calls(run) <= 15 * |c| * |c| + 14 * |c|
    ensures var s := Exec(c, Init(c), run);
            && |s.pcs| == |c|
            && ((forall t: nat :: !Enabled(c, s, Go(t))) ==> forall t: nat | t < |c| :: Ended(s.pcs[t]))
  {
    hide Made, Sum, Enabled, Apply;
    InitInv(c);
    RunInv(c, Init(c), run);
    RunBounded(c, Init(c), run);
    SumAtMost(Ranks(c, Init(c)), Same, 14);
    var s := Exec(c, Init(c), run);
    forall t: nat | t < |c| ensures Enabled(c, s, Go(t)) || Ended(s.pcs[t]) { NotEndedGoesOn(c, s, t); }
  }

  // ----- which calls fail, and which succeed

  /** A look at the file's mode that finds the user-execute bit on. */
  ghost predicate LooksInVain(s: State, t: nat) {
    && t < |s.pcs| && s.pcs[t].Poll?
    && s.name.Some? && s.name.value < |s.inodes| && s.inodes[s.name.value].xusr
  }

  /** Why a call fails at its next step: the name is taken, its attributes are bad, there is no
   *  file and it may not create one, or this is its last look. */
  ghost predicate Refused(c: seq<Opener>, s: State, t: nat)
    requires t < |s.pcs| == |c|
  {
    var pc := s.pcs[t];
    || (pc.Again? && c[t].creat && c[t].excl && s.name != None)
    || (pc.Created? && c[t].creat && c[t].Invalid())
    || ((pc.Exists? || pc.Poll?) && s.name == None && !c[t].creat)
    || (LooksInVain(s, t) && pc.i == 9)
  }

  lemma FailsIffRefused(c: seq<Opener>, s: State, t: nat)
    requires Inv(c, s) && Enabled(c, s, Go(t))
    ensures |Apply(c, s, Go(t)).pcs| == |c|
    ensures Apply(c, s, Go(t)).pcs[t].Failed? <==> Refused(c, s, t)
  {
    hide Made;
    assert Place(c, s, t);
  }

  /** How many looks in vain call `t` has made in a row when the run ends, after `n` before it. */
  ghost function Looks(c: seq<Opener>, s: State, run: seq<Step>, t: nat, n: nat): nat
    requires Legal(c, s, run)
    decreases |run|
  {
    if run == [] then n
    else Looks(c, Apply(c, s, run[0]), run[1..], t,
               if run[0] != Go(t) then n else if LooksInVain(s, t) then n + 1 else 0)
  }

  lemma {:induction false} LooksCounted(c: seq<Opener>, s: State, run: seq<Step>, t: nat, n: nat)
    requires Inv(c, s) && Legal(c, s, run) && t < |c| && (s.pcs[t].Poll? ==> s.pcs[t].i == n)
    ensures |Exec(c, s, run).pcs| == |c|
    ensures Exec(c, s, run).pcs[t].Poll? ==> Exec(c, s, run).pcs[t].i == Looks(c, s, run, t, n)
    decreases |run|
  {
    if run != [] {
      var r := Apply(c, s, run[0]);
      StepInv(c, s, run[0]);
      var k: nat := if run[0] != Go(t) then n else if LooksInVain(s, t) then n + 1 else 0;
      PollCounted(c, s, run[0], t, n, k);
      hide Inv, Enabled, Apply;
      LooksCounted(c, r, run[1..], t, k);
    }
  }

  lemma PollCounted(c: seq<Opener>, s: State, step: Step, t: nat, n: nat, k: nat)
    requires Inv(c, s) && Enabled(c, s, step) && t < |c| && (s.pcs[t].Poll? ==> s.pcs[t].i == n)
    requires k == if step != Go(t) then n else if LooksInVain(s, t) then n + 1 else 0
    ensures var r := Apply(c, s, step); |r.pcs| == |c| && (r.pcs[t].Poll? ==> r.pcs[t].i == k)
  {
    hide Made;
    assert Place(c, s, t);
  }

  lemma {:induction false} LastStep(c: seq<Opener>, s: State, run: seq<Step>)
    requires Legal(c, s, run) && run != []
    ensures var n := |run| - 1;
            && Legal(c, s, run[..n]) && Enabled(c, Exec(c, s, run[..n]), run[n])
            && Exec(c, s, run) == Apply(c, Exec(c, s, run[..n]), run[n])
    decreases |run|
  {
    hide Enabled, Apply;
    var n := |run| - 1;
    if n > 0 {
      LastStep(c, Apply(c, s, run[0]), run[1..]);
      assert run[..n][1..] == run[1..][..n - 1] && run[..n][0] == run[0];
    }
  }

  /** Call `t` made its step `k` of the run for such a reason; a last look comes after nine in a
   *  row that were in vain as well. */
  ghost predicate FailsAt(c: seq<Opener>, run: seq<Step>, t: nat, k: nat) {
    && k < |run| && t < |c| && run[k] == Go(t) && Legal(c, Init(c), run[..k])
    && var s := Exec(c, Init(c), run[..k]);
       && |s.pcs| == |c| && Refused(c, s, t)
       && (LooksInVain(s, t) ==> Looks(c, Init(c), run[..k], t, 0) == 9)
  }

  /** No call fails without such a reason. */
  lemma {:induction false} FailureHasReason(c: seq<Opener>, run: seq<Step>, t: nat)
    requires Openers(c) && Legal(c, Init(c), run) && t < |c|
    ensures |Exec(c, Init(c), run).pcs| == |c|
    ensures Exec(c, Init(c), run).pcs[t].Failed? ==> exists k: nat :: FailsAt(c, run, t, k)
    decreases |run|
  {
    hide Made, Refused, Names, Place;
    if run != [] {
      var n := |run| - 1;
      var front, step := run[..n], run[n];
      LastStep(c, Init(c), run);
      var s := Exec(c, Init(c), front);
      InitInv(c);
      RunInv(c, Init(c), front);
      FailureHasReason(c, front, t);
      LooksCounted(c, Init(c), front, t, 0);
      if s.pcs[t].Failed? {
        var k: nat :| FailsAt(c, front, t, k);
        assert run[..k] == front[..k];
        assert FailsAt(c, run, t, k);
      } else if step == Go(t) {
        FailsIffRefused(c, s, t);
        if Refused(c, s, t) { RefusedLook(c, s, t); assert FailsAt(c, run, t, n); }
      } else {
        OthersStay(c, s, step, t);
      }
    }
  }

  lemma RefusedLook(c: seq<Opener>, s: State, t: nat)
    requires t < |s.pcs| == |c| && Refused(c, s, t)
    ensures LooksInVain(s, t) ==> s.pcs[t].i == 9
  {
  }

  lemma OthersStay(c: seq<Opener>, s: State, step: Step, t: nat)
    requires Enabled(c, s, step) && step != Go(t) && t < |c|
    ensures |Apply(c, s, step).pcs| == |c| && Apply(c, s, step).pcs[t] == s.pcs[t]
  {
  }

  /** A call that finds a complete file, and is not disturbed, returns a good queue of its whole
   *  length. */
  lemma FindsTheQueue(c: seq<Opener>, s: State, t: nat, n: nat) returns (run: seq<Step>)
    requires Inv(c, s) && t < |c| && s.pcs[t].Again? && c[t].MayFindIt()
    requires n < |s.inodes| && s.name == Some(n) && !s.inodes[n].xusr
    ensures run == [Go(t), Go(t)] + [Go(t), Go(t)] && Legal(c, s, run)
    ensures Exec(c, s, run) == s.(pcs := s.pcs[t := Opened(n, |s.inodes[n].bytes|)])
    ensures Good(c, Exec(c, s, run), t)
  {
    hide Made;
    var a := Apply(c, s, Go(t));
    var b := Apply(c, a, Go(t));
    TwoSteps(c, s, Go(t), Go(t));
    var d := Apply(c, b, Go(t));
    var e := Apply(c, d, Go(t));
    TwoSteps(c, b, Go(t), Go(t));
    RunAppend(c, s, [Go(t), Go(t)], [Go(t), Go(t)]);
    run := [Go(t), Go(t)] + [Go(t), Go(t)];
    assert e.pcs == s.pcs[t := Opened(n, |s.inodes[n].bytes|)];
    MadeSize(c[s.inodes[n].creator], s.inodes[n].bytes);
  }

  /** So does a call that is already looking when its file gets complete. */
  lemma {:induction false} SeesItComplete(c: seq<Opener>, s: State, t: nat, n: nat, i: nat)
    requires Inv(c, s) && t < |c| && s.pcs[t] == Poll(n, i)
    requires n < |s.inodes| && s.name == Some(n) && !s.inodes[n].xusr
    ensures Legal(c, s, [Go(t), Go(t)])
    ensures Exec(c, s, [Go(t), Go(t)]) == s.(pcs := s.pcs[t := Opened(n, |s.inodes[n].bytes|)])
  {
    hide Made;
    TwoSteps(c, s, Go(t), Go(t));
    assert s.pcs[t := Map(n, |s.inodes[n].bytes|)][t := Opened(n, |s.inodes[n].bytes|)]
        == s.pcs[t := Opened(n, |s.inodes[n].bytes|)];
  }

  // ----- the program

  lemma CreatorMakesGood(c: seq<Opener>, s: State, t: nat)
    requires Inv(c, s) && t < |c| && s.pcs[t].Complete? && Enabled(c, s, Go(t))
    ensures var r := Apply(c, s, Go(t));
            |r.pcs| == |c| && r.pcs[t].Opened? && Good(c, r, t) && r.name == Some(r.pcs[t].m)
  {
    hide Made;
    assert Place(c, s, t);
    MadeSize(c[t], s.inodes[s.pcs[t].m].bytes);
  }

  /** The path, the files it named, and the calls. */
  class Directory {
    const c: seq<Opener>
    var name: Option<nat>
    var inodes: seq<Inode>
    var pcs: seq<Pc>

    function View(): State
      reads this
    {
      State(name, inodes, pcs)
    }

    constructor (c: seq<Opener>)
      ensures this.c == c && View() == Init(c)
    {
      this.c, name, inodes := c, None, [];
      pcs := seq(|c|, _ => Again);
    }

    /** The next step of mq_open() in call `t`.  A creator that returns has made a good queue,
     *  which has the name. */
    method Advance(t: nat)
      requires Inv(c, View()) && Enabled(c, View(), Go(t))
      modifies this
      ensures View() == Apply(c, old(View()), Go(t)) && Inv(c, View())
      ensures old(pcs[t]).Complete? ==> pcs[t].Opened? && Good(c, View(), t) && name == Some(pcs[t].m)
    {
      hide Made, Names;
      StepInv(c, View(), Go(t));
      if pcs[t].Complete? { CreatorMakesGood(c, View(), t); }
      var o := c[t];
      match pcs[t]
      case Again =>
        if o.creat && name == None {
          name := Some(|inodes|);
          pcs := pcs[t := Created(|inodes|)];
          inodes := inodes + [Inode(t, true, [])];
        } else if o.creat && o.excl {
          pcs := pcs[t := Failed];
        } else {
          pcs := pcs[t := Exists];
        }
      case Created(m) =>
        if o.Invalid() {
          name := None;
          pcs := pcs[t := Failed];
        } else {
          inodes := inodes[m := inodes[m].(bytes := Zeros(o.Size()))];
          pcs := pcs[t := Extended(m)];
        }
      case Extended(m) =>
        inodes := inodes[m := inodes[m].(bytes := o.image)];
        pcs := pcs[t := Complete(m)];
      case Complete(m) =>
        inodes := inodes[m := inodes[m].(xusr := false)];
        pcs := pcs[t := Opened(m, o.Size())];
      case Exists =>
        if name.Some? {
          pcs := pcs[t := Poll(name.value, 0)];
        } else {
          pcs := pcs[t := if o.creat then Again else Failed];
        }
      case Poll(m, i) =>
        if name == None {
          pcs := pcs[t := if o.creat then Again else Failed];
        } else if !inodes[name.value].xusr {
          pcs := pcs[t := Map(m, |inodes[name.value].bytes|)];
        } else if i + 1 < MAX_TRIES {
          pcs := pcs[t := Poll(m, i + 1)];
        } else {
          pcs := pcs[t := Failed];
        }
      case Map(m, size) =>
        pcs := pcs[t := Opened(m, size)];
    }

    /** All calls under any scheduler: each ends, and unless there is the risk every descriptor
     *  returned is a good one of the file that has the name. */
    method RunToTheEnd() returns (ghost run: seq<Step>)
      requires Openers(c) && View() == Init(c)
      modifies this
      ensures Legal(c, Init(c), run) && View() == Exec(c, Init(c), run)
      ensures Inv(c, View()) && forall t: nat | t < |c| :: Ended(pcs[t])
      ensures forall t: nat | t < |c| && pcs[t].Failed? :: exists k: nat :: FailsAt(c, run, t, k)
      ensures !Risk(c) ==> AllGood(c, View()) && forall t: nat | t < |c| && pcs[t].Opened? :: name == Some(pcs[t].m)
    {
      hide Made, Enabled, Apply, MapsAll, Place, Names, Risk, Good;
      InitInv(c);
      NothingMapped(c);
      run := [];
      while exists t: nat | t < |c| :: !Ended(pcs[t])
        invariant Inv(c, View()) && (!Risk(c) ==> AllMapAll(View()))
        invariant Legal(c, Init(c), run) && View() == Exec(c, Init(c), run)
        decreases Remaining(c, View())
      {
        var t: nat :| t < |c| && !Ended(pcs[t]);
        ghost var before := View();
        NotEndedGoesOn(c, before, t);
        StepInv(c, before, Go(t));
        RemainingDecreases(c, before, t);
        RanksNonNegative(c, before);
        if !Risk(c) {
          forall k: nat | k < |c| ensures MapsAll(Apply(c, before, Go(t)), k) { MapsAllKept(c, before, Go(t), k); }
        }
        OneStep(c, before, Go(t));
        RunAppend(c, Init(c), run, [Go(t)]);
        run := run + [Go(t)];
        Advance(t);
      }
      if !Risk(c) { GoodWhenMapped(c, View()); }
      forall t: nat | t < |c| && pcs[t].Failed? ensures exists k: nat :: FailsAt(c, run, t, k) {
        FailureHasReason(c, run, t);
      }
    }
  }
}
