/** svmsg/svmsgcliserv on a queue with room for `k` messages only: msgsnd() waits while the queue
 *  is full, and requests and replies share the room. */
module ClientServerRoom {
  import opened Basics
  import opened Text
  import opened ClientServer

  ghost predicate Fits(k: nat, s: State, step: Step) {
    Enabled(s, step) && (step.Ask? || step.Answer? ==> |s.queue| < k)
  }

  /** A run in which no message is sent into a full queue. */
  ghost predicate Within(k: nat, f: Files, s: State, run: seq<Step>)
    requires Legal(f, s, run)
    decreases |run|
  {
    run == [] || (Fits(k, s, run[0]) && Within(k, f, Apply(f, s, run[0]), run[1..]))
  }

  /** Nobody can go on and some client has not got its reply. */
  ghost predicate Deadlocked(k: nat, s: State) {
    && (forall step: Step :: !Fits(k, s, step))
    && exists i: nat :: i < |s.clients| && !s.clients[i].stage.Done?
  }

  ghost predicate NeverDeadlocks(k: nat, f: Files, s: State) {
    forall run | Legal(f, s, run) && Within(k, f, s, run) :: !Deadlocked(k, Exec(f, s, run))
  }

  ghost predicate Texts(f: Files) {
    forall path | path in f.content :: '\0' !in f.content[path]
  }

  // ----- a reply to read to its end

  /** Only the last message of a reply is empty. */
  lemma ReplyIsReadToItsEnd(f: Files, pid: int, line: string)
    requires Texts(f) && IsPid(pid)
    ensures UpToEmpty(Reply(f, Request(pid, line))) == Reply(f, Request(pid, line))
  {
    ParseRequest(pid, line);
    RequestText(pid, line);
    PidLength(pid);
    var path, r := PathOf(pid, line), Reply(f, Request(pid, line));
    if path in f.content { LinesOfText(f.content[path], MAXMESGDATA - 1); }
    assert forall i | 0 <= i < |r| - 1 :: r[i] != "";
    UpToEmptyIs(r, |r| - 1);
  }

  // ----- whose message it is

  ghost predicate Known(s: State, ty: int) {
    ty == 1 || exists i: nat :: i < |s.clients| && s.clients[i].pid == ty
  }

  /** Every message in the queue is a request or for some client. */
  ghost predicate Typed(s: State) {
    forall m | m in s.queue :: Known(s, m.mtype)
  }

  lemma {:induction false} WithoutKeeps(q: seq<Mesg>, ty: int, m: Mesg)
    requires OfType(q, ty) != [] && m in Without(q, ty)
    ensures m in q
  {
    if q[0].mtype != ty && m != q[0] { WithoutKeeps(q[1..], ty, m); }
  }

  lemma TypedStep(f: Files, s: State, step: Step)
    requires Inv(f, s) && Typed(s) && Enabled(s, step)
    ensures Typed(Apply(f, s, step))
  {
    hide OfType, Without, Request, Reply, Parse, Requests, Account, GoesOn;
    var r := Apply(f, s, step);
    forall m | m in r.queue ensures Known(r, m.mtype) {
      if step.Read? && m in r.queue { WithoutKeeps(s.queue, s.clients[step.i].pid, m); }
      if step.Accept? { WithoutKeeps(s.queue, 1, m); }
      if step.Answer? && m !in s.queue { assert r.clients[s.server.to].pid == m.mtype; }
      if m in s.queue && m.mtype != 1 {
        var i: nat :| i < |s.clients| && s.clients[i].pid == m.mtype;
        assert r.clients[i].pid == m.mtype;
      }
    }
  }

  lemma {:induction false} TypedRun(f: Files, s: State, run: seq<Step>)
    requires Inv(f, s) && Typed(s) && Legal(f, s, run)
    ensures Inv(f, Exec(f, s, run)) && Typed(Exec(f, s, run))
    decreases |run|
  {
    hide Inv, Typed, Enabled, Apply;
    if run != [] {
      StepInv(f, s, run[0]);
      TypedStep(f, s, run[0]);
      TypedRun(f, Apply(f, s, run[0]), run[1..]);
    }
  }

  lemma {:induction false} InOfType(q: seq<Mesg>, m: Mesg)
    requires m in q
    ensures OfType(q, m.mtype) != []
  {
    if q[0] != m { InOfType(q[1..], m); }
  }

  /** A queue longer than its requests holds something else. */
  lemma {:induction false} NotOnlyRequests(q: seq<Mesg>) returns (m: Mesg)
    requires |q| > |OfType(q, 1)|
    ensures m in q && m.mtype != 1
  {
    if q[0].mtype != 1 { m := q[0]; } else { m := NotOnlyRequests(q[1..]); }
  }

  /** A message for a client finds that client reading. */
  lemma ReaderIsThere(f: Files, s: State, m: Mesg) returns (i: nat)
    requires Inv(f, s) && Typed(s) && Texts(f) && m in s.queue && m.mtype != 1
    ensures Enabled(s, Read(i))
  {
    hide OfType, Request, Reply, UpToEmpty;
    i :| i < |s.clients| && s.clients[i].pid == m.mtype;
    var c := s.clients[i];
    assert Account(f, s, i);
    InOfType(s.queue, m);
    ReplyEnds(f, c.pid, c.line);
    if c.stage.Done? {
      ReplyIsReadToItsEnd(f, c.pid, c.line);
      UpToEmptyIs(ReplyTo(f, c), |c.got| - 1);
      assert false;
    }
  }

  /** While the server serves one client, the requests of the others are fewer than the clients. */
  lemma RequestsFit(f: Files, s: State)
    requires Inv(f, s) && s.server.Sending?
    ensures |OfType(s.queue, 1)| < |s.clients|
  {
    DistinctBelow(s.order + [s.server.to], |s.clients|);
  }

  /** With room for all, somebody can go on as long as a client waits. */
  lemma SomebodyGoesOn(k: nat, f: Files, s: State, i: nat) returns (step: Step)
    requires Inv(f, s) && Typed(s) && Texts(f) && i < |s.clients| <= k && !s.clients[i].stage.Done?
    ensures Fits(k, s, step)
  {
    hide Request, Reply, UpToEmpty, Parse;
    if |s.queue| > |OfType(s.queue, 1)| {
      var m := NotOnlyRequests(s.queue);
      var reader := ReaderIsThere(f, s, m);
      step := Read(reader);
    } else if s.server.Sending? {
      RequestsFit(f, s);
      step := Answer;
    } else if OfType(s.queue, 1) != [] {
      step := Accept;
    } else {
      step := Ask(i);
      if s.clients[i].stage.Reading? {
        assert Account(f, s, i);
        ReplyEnds(f, s.clients[i].pid, s.clients[i].line);
        assert false;
      }
    }
  }

  // ----- too little room

  /** The server serves client 0, the next `j` clients have their requests in the queue. */
  ghost predicate Crowded(f: Files, s: State, j: nat) {
    && Inv(f, s) && |s.queue| == j < |s.clients|
    && s.server.Sending? && s.server.to == 0 && s.server.rest == ReplyTo(f, s.clients[0])
    && s.clients[0].stage.Reading?
    && (forall i: nat :: i in s.order <==> 0 < i <= j)
    && (forall i: nat | j < i < |s.clients| :: s.clients[i].stage.Asking?)
  }

  lemma {:induction false} Crowd(k: nat, f: Files, s: State, j: nat) returns (run: seq<Step>)
    requires Crowded(f, s, j) && j <= k < |s.clients|
    ensures Legal(f, s, run) && Within(k, f, s, run)
    ensures Crowded(f, Exec(f, s, run), k) && |Exec(f, s, run).clients| == |s.clients|
    decreases k - j
  {
    hide OfType, Request, Reply, Parse, Inv;
    if j == k {
      run := [];
    } else {
      assert IsPid(s.clients[j + 1].pid) by { PidKnown(f, s, j + 1); }
      var r := Apply(f, s, Ask(j + 1));
      StepInv(f, s, Ask(j + 1));
      var rest := Crowd(k, f, r, j + 1);
      run := [Ask(j + 1)] + rest;
      assert run[1..] == rest;
    }
  }

  lemma PidKnown(f: Files, s: State, i: nat)
    requires Inv(f, s) && i < |s.clients|
    ensures IsPid(s.clients[i].pid) && s.clients[i].pid != 1
  {
  }

  /** With the queue full of requests the server cannot answer, so nobody reads. */
  lemma CrowdedIsDeadlocked(k: nat, f: Files, s: State)
    requires Crowded(f, s, k)
    ensures Deadlocked(k, s)
  {
    hide OfType, Request, Reply, Parse;
    forall step: Step ensures !Fits(k, s, step) {
      if step.Read? && step.i < |s.clients| { assert Account(f, s, step.i); }
    }
    assert !s.clients[0].stage.Done?;
  }

  lemma FirstRequest(f: Files, s: State) returns (a: State, r: State)
    requires Start(s) && |s.clients| > 0
    ensures Enabled(s, Ask(0)) && a == Apply(f, s, Ask(0)) && s.queue == []
    ensures Enabled(a, Accept) && r == Apply(f, a, Accept)
    ensures Crowded(f, r, 0) && |r.clients| == |s.clients|
  {
    var c := s.clients[0];
    StartInv(f, s);
    var m := Mesg(1, Request(c.pid, c.line));
    a := Apply(f, s, Ask(0));
    assert a.queue == [m] && [m][1..] == [];
    assert OfType(a.queue, 1) == [m.data] && Without(a.queue, 1) == [];
    hide Request, Reply, Parse, OfType, Without, Inv;
    StepInv(f, s, Ask(0));
    ParseRequest(c.pid, c.line);
    r := Apply(f, a, Accept);
    StepInv(f, a, Accept);
  }

  lemma {:induction false} TwoSteps(k: nat, f: Files, s: State, x: Step, y: Step)
    requires Fits(k, s, x) && Fits(k, Apply(f, s, x), y)
    ensures Legal(f, s, [x, y]) && Within(k, f, s, [x, y])
    ensures Exec(f, s, [x, y]) == Apply(f, Apply(f, s, x), y)
  {
    hide Apply, Enabled;
    var a, r, one, two := Apply(f, s, x), Apply(f, Apply(f, s, x), y), [y], [x, y];
    assert two[1..] == one && one[1..] == [];
    assert Legal(f, r, []) && Exec(f, r, []) == r && Within(k, f, r, []);
    assert Legal(f, a, one) && Exec(f, a, one) == r && Within(k, f, a, one);
  }

  lemma {:induction false} RunAppend(k: nat, f: Files, s: State, a: seq<Step>, b: seq<Step>)
    requires Legal(f, s, a) && Within(k, f, s, a) && Legal(f, Exec(f, s, a), b) && Within(k, f, Exec(f, s, a), b)
    ensures Legal(f, s, a + b) && Within(k, f, s, a + b) && Exec(f, s, a + b) == Exec(f, Exec(f, s, a), b)
    decreases |a|
  {
    hide Enabled, Apply, Fits;
    if a == [] {
      assert a + b == b;
    } else {
      assert (a + b)[1..] == a[1..] + b;
      RunAppend(k, f, Apply(f, s, a[0]), a[1..], b);
    }
  }

  lemma Jams(k: nat, f: Files, s: State) returns (run: seq<Step>)
    requires Start(s) && |s.clients| > k
    ensures Legal(f, s, run) && Within(k, f, s, run) && Deadlocked(k, Exec(f, s, run))
  {
    if k == 0 {
      run := [];
      assert !s.clients[0].stage.Done?;
    } else {
      var a, r := FirstRequest(f, s);
      TwoSteps(k, f, s, Ask(0), Accept);
      var rest := Crowd(k, f, r, 0);
      RunAppend(k, f, s, [Ask(0), Accept], rest);
      run := [Ask(0), Accept] + rest;
      CrowdedIsDeadlocked(k, f, Exec(f, s, run));
    }
  }

  /** On one queue with room for `k` messages, clients that ask for text files and the server never
   *  block each other if and only if there are no more clients than `k`. */
  lemma NeverDeadlocksIffRoomForAll(k: nat, f: Files, s: State)
    requires Start(s) && Texts(f)
    ensures NeverDeadlocks(k, f, s) <==> |s.clients| <= k
  {
    if |s.clients| <= k {
      StartInv(f, s);
      forall run | Legal(f, s, run) && Within(k, f, s, run) ensures !Deadlocked(k, Exec(f, s, run)) {
        TypedRun(f, s, run);
        RunKeepsClients(f, s, run);
        var r := Exec(f, s, run);
        forall i: nat | i < |r.clients| && !r.clients[i].stage.Done? ensures exists step: Step :: Fits(k, r, step) {
          var step := SomebodyGoesOn(k, f, r, i);
        }
      }
    } else {
      var run := Jams(k, f, s);
    }
  }
}
