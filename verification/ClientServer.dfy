/** svmsg/svmsgcliserv: any number of clients and one server share one System V message queue.
 *  A client sends "pid path" as a message of type 1 and takes only messages of its own pid's
 *  type; the server answers each request with the file, line by line, and an empty message.
 *
 *  Every msgsnd and every msgrcv is a step; the queue is unbounded. */
module ClientServer {
  import opened Basics
  import opened Sums
  import opened Text

  const MAXMESGDATA := 256
  const PID_MAX := 0x7FFF_FFFF

  datatype Mesg = Mesg(mtype: int, data: string)

  /** The server's view of the file system: fopen(path, "r") succeeds exactly on these paths, and
   *  `reason` is what strerror() says otherwise. */
  datatype Files = Files(content: map<string, string>, reason: string)

  predicate IsPid(pid: int) { 0 < pid <= PID_MAX }

  // ----- the request

  function Chomp(s: string): string {
    if s != "" && s[|s| - 1] == '\n' then s[..|s| - 1] else s
  }

  lemma PidLength(pid: int)
    requires IsPid(pid)
    ensures 0 < |Print(pid)| <= 10
  {
    assert Power10(5) == 100000;
    assert Power10(10) == 100000 * Power10(5);
    DigitsLength(pid, 10, Power10(10));
  }

  /** How much of the line fgets may take: what "pid " and the NUL leave of the buffer. */
  function Room(pid: int): nat
    requires IsPid(pid)
  {
    PidLength(pid);
    MAXMESGDATA - (|Print(pid)| + 1) - 1
  }

  /** What the client sends: its pid, a blank, and as much of the line as fits. */
  function Request(pid: int, line: string): string
    requires IsPid(pid)
  {
    Chomp(Print(pid) + " " + CString(Fgets(line, Room(pid))))
  }

  /** The path a client asks for with `line`. */
  function PathOf(pid: int, line: string): string
    requires IsPid(pid)
  {
    Chomp(CString(Fgets(line, Room(pid))))
  }

  /** strchr(data, ' '). */
  function FirstBlank(s: string): Option<nat> {
    if s == "" then None
    else if s[0] == ' ' then Some(0)
    else match FirstBlank(s[1..]) case None => None case Some(i) => Some(i + 1)
  }

  /** How the server takes a request apart, as a C string; None: a missing path name or a bogus
   *  request. */
  function Parse(data: string): Option<(int, string)> {
    var s := CString(data);
    match FirstBlank(s)
    case None => None
    case Some(i) => if i < |s| then Some((Atol(s[..i]), s[i + 1..])) else None
  }

  lemma {:induction false} FirstBlankIsFirst(s: string)
    ensures match FirstBlank(s)
            case None => ' ' !in s
            case Some(i) => i < |s| && s[i] == ' ' && ' ' !in s[..i]
  {
    if s != "" {
      FirstBlankIsFirst(s[1..]);
      assert s == [s[0]] + s[1..];
      match FirstBlank(s[1..]) {
        case None =>
        case Some(i) => assert s[..i + 1] == [s[0]] + s[1..][..i];
      }
    }
  }

  /** Any request is split at the first blank of its C string, and refused just when there is none. */
  lemma {:induction false} ParseSplits(data: string)
    ensures Parse(data) == None <==> ' ' !in CString(data)
    ensures Parse(data).Some? ==>
              exists number: string :: CString(data) == number + " " + Parse(data).value.1 && ' ' !in number
                                       && Parse(data).value.0 == Atol(number)
  {
    var s := CString(data);
    FirstBlankIsFirst(s);
    if FirstBlank(s).Some? {
      var i := FirstBlank(s).value;
      assert s == s[..i] + " " + s[i + 1..];
    }
  }

  lemma {:induction false} BlankAfterNumber(a: string, b: string)
    requires forall i | 0 <= i < |a| :: a[i] != ' '
    ensures FirstBlank(a + " " + b) == Some(|a|)
  {
    var s := a + " " + b;
    if a == "" {
      assert s[0] == ' ';
    } else {
      assert s[1..] == a[1..] + " " + b;
      BlankAfterNumber(a[1..], b);
    }
  }

  lemma RequestText(pid: int, line: string)
    requires IsPid(pid)
    ensures Request(pid, line) == Print(pid) + " " + PathOf(pid, line)
    ensures |Print(pid)| + 1 + |PathOf(pid, line)| < MAXMESGDATA
    ensures '\0' !in Request(pid, line)
  {
    PidLength(pid);
    var number, taken := Print(pid), CString(Fgets(line, Room(pid)));
    var whole := number + " " + taken;
    assert whole[|whole| - 1] == if taken == "" then ' ' else taken[|taken| - 1];
    if taken != "" { assert whole[..|whole| - 1] == number + " " + taken[..|taken| - 1]; }
  }

  /** Request parsing undoes request formatting, for every pid and every line, and a request
   *  leaves room for the terminating NUL in the server's buffer. */
  lemma ParseRequest(pid: int, line: string)
    requires IsPid(pid)
    ensures Parse(Request(pid, line)) == Some((pid, PathOf(pid, line)))
    ensures 0 < |Request(pid, line)| < MAXMESGDATA
  {
    var number, path := Print(pid), PathOf(pid, line);
    RequestText(pid, line);
    assert forall i | 0 <= i < |number| :: number[i] != ' ';
    BlankAfterNumber(number, path);
    var r := number + " " + path;
    assert r[..|number|] == number && r[|number| + 1..] == path;
    ScanPrint(pid, "");
    assert number + "" == number;
  }

  /** A path as one types it: one line, no NUL. */
  predicate PlainPath(path: string) { '\n' !in path && '\0' !in path }

  lemma TypedLine(path: string, limit: nat)
    requires PlainPath(path)
    ensures Fgets(path + "\n", limit) == if |path| < limit then path + "\n" else path[..limit]
  {
    var s := path + "\n";
    var n := LineLength(s, limit);
    assert forall i | 0 <= i < |path| :: s[i] == path[i];
    assert n == if |path| < limit then |path| + 1 else limit;
  }

  /** Typing a path and a newline asks for exactly that path, if and only if it fits the buffer
   *  with the pid, the blank and the NUL. */
  lemma AsksForThePath(pid: int, path: string)
    requires IsPid(pid) && PlainPath(path)
    ensures PathOf(pid, path + "\n") == path <==> |Print(pid)| + 1 + |path| < 256
    ensures |Print(pid)| + 1 + |path| < 256 ==> Request(pid, path + "\n") == Print(pid) + " " + path
  {
    PidLength(pid);
    var limit := Room(pid);
    var typed := Fgets(path + "\n", limit);
    TypedLine(path, limit);
    assert '\0' !in typed && CString(typed) == typed;
    if |path| < limit {
      assert (path + "\n")[..|path|] == path;
    } else {
      assert limit == 0 || typed[limit - 1] == path[limit - 1];
    }
    RequestText(pid, path + "\n");
  }

  // ----- the reply

  /** What the server says when it cannot open the file: the path, and the reason as far as the
   *  buffer holds it behind a request of length `n`. */
  function Complaint(path: string, reason: string, n: nat): (c: string)
    requires n < MAXMESGDATA
    ensures path <= c && |c| < MAXMESGDATA - n + |path|
  {
    var text := ": can't open, " + reason + "\n";
    var room := MAXMESGDATA - n - 1;
    path + (if |text| <= room then text else text[..room])
  }

  /** The complaint is put behind all of the request; only behind a request without a NUL in it
   *  does it follow the path. */
  function Refusal(path: string, reason: string, data: string): string
    requires |data| < MAXMESGDATA
  {
    if '\0' in data then path else Complaint(path, reason, |data|)
  }

  function CStrings(l: seq<string>): (r: seq<string>)
    ensures |r| == |l| && forall k | 0 <= k < |l| :: r[k] == CString(l[k])
  {
    if l == [] then [] else [CString(l[0])] + CStrings(l[1..])
  }

  /** The messages sent for a request.  A line goes out with the length strlen() gives it. */
  function Reply(files: Files, data: string): seq<string> {
    match Parse(data)
    case None => []
    case Some((_, path)) =>
      (if path in files.content then CStrings(Lines(files.content[path], MAXMESGDATA - 1))
       else if |data| < MAXMESGDATA then [Refusal(path, files.reason, data)] else []) + [""]
  }

  /** A client's loop ends with the first empty message. */
  function UpToEmpty(l: seq<string>): seq<string> {
    if l == [] then [] else if l[0] == "" then [""] else [l[0]] + UpToEmpty(l[1..])
  }

  lemma {:induction false} UpToEmptyIs(l: seq<string>, n: nat)
    requires n < |l| && l[n] == "" && forall k | 0 <= k < n :: l[k] != ""
    ensures UpToEmpty(l) == l[..n + 1]
  {
    if n == 0 {
      assert l[..1] == [""];
    } else {
      UpToEmptyIs(l[1..], n - 1);
      assert l[..n + 1] == [l[0]] + l[1..][..n];
    }
  }

  /** What a client prints of a file. */
  function Delivered(s: string): string {
    Concat(UpToEmpty(CStrings(Lines(s, MAXMESGDATA - 1)) + [""]))
  }

  lemma {:induction false} ConcatCons(x: string, l: seq<string>)
    ensures Concat([x] + l) == x + Concat(l)
  {
    assert ([x] + l)[1..] == l;
  }

  lemma LinesStep(s: string)
    requires s != ""
    ensures var l := Fgets(s, MAXMESGDATA - 1);
            && 0 < |l| <= |s|
            && CStrings(Lines(s, MAXMESGDATA - 1)) == [CString(l)] + CStrings(Lines(s[|l|..], MAXMESGDATA - 1))
  {
    var l := Fgets(s, MAXMESGDATA - 1);
    var rest := Lines(s[|l|..], MAXMESGDATA - 1);
    assert ([l] + rest)[1..] == rest;
  }

  lemma DeliveredNothing()
    ensures Delivered("") == ""
  {
    assert CStrings(Lines("", MAXMESGDATA - 1)) + [""] == [""];
    ConcatCons("", []);
    assert [""] + [] == [""];
  }

  lemma {:induction false} DeliveredStep(s: string)
    requires s != ""
    ensures var n := LineLength(s, MAXMESGDATA - 1);
            && n > 0
            && Delivered(s) == if s[0] == '\0' then "" else CString(s[..n]) + Delivered(s[n..])
  {
    var n := LineLength(s, MAXMESGDATA - 1);
    var c, l := CString(s[..n]), CStrings(Lines(s[n..], MAXMESGDATA - 1)) + [""];
    LinesStep(s);
    assert CStrings(Lines(s, MAXMESGDATA - 1)) + [""] == [c] + l;
    hide Lines, LineLength, CStrings, CString;
    assert ([c] + l)[1..] == l;
    assert c == "" <==> s[0] == '\0' by { FirstNul(s[..n]); }
    if s[0] == '\0' { ConcatCons("", []); assert [""] + [] == [""]; } else { ConcatCons(c, UpToEmpty(l)); }
  }

  lemma {:induction false} FirstNul(s: string)
    requires s != ""
    ensures CString(s) == "" <==> s[0] == '\0'
  {
  }

  lemma SplitEqual(c: string, d: string, a: string, b: string)
    requires |c| <= |a| && |d| <= |b|
    ensures c + d == a + b <==> c == a && d == b
  {
    if c + d == a + b {
      assert |c + d| == |a + b|;
      assert (c + d)[..|a|] == (a + b)[..|a|] && (c + d)[|a|..] == (a + b)[|a|..];
    }
  }

  /** A client gets to print exactly the file just when the file has no NUL in it. */
  lemma {:induction false} WholeFileIffText(s: string)
    ensures Delivered(s) == s <==> '\0' !in s
    ensures |Delivered(s)| <= |s|
    decreases |s|
  {
    if s == "" {
      DeliveredNothing();
    } else {
      hide Delivered, CString, Concat;
      DeliveredStep(s);
      var n := LineLength(s, MAXMESGDATA - 1);
      WholeFileIffText(s[n..]);
      WholeFileStep(s, n, CString(s[..n]), Delivered(s[n..]), Delivered(s));
    }
  }

  lemma WholeFileStep(s: string, n: nat, c: string, d: string, whole: string)
    requires 0 < n <= |s| && whole == if s[0] == '\0' then "" else c + d
    requires |c| <= n && (c == s[..n] <==> '\0' !in s[..n])
    requires |d| <= |s| - n && (d == s[n..] <==> '\0' !in s[n..])
    ensures whole == s <==> '\0' !in s
    ensures |whole| <= |s|
  {
    assert s == s[..n] + s[n..];
    if s[0] != '\0' { SplitEqual(c, d, s[..n], s[n..]); }
  }

  /** A text file goes out line by line, a longer line in pieces of 255 characters. */
  lemma {:induction false} RepliesByLines(files: Files, pid: int, line: string, k: nat)
    requires IsPid(pid) && PathOf(pid, line) in files.content && '\0' !in files.content[PathOf(pid, line)]
    requires k + 1 < |Reply(files, Request(pid, line))|
    ensures var r := Reply(files, Request(pid, line)); WellCut(r[k], 255, k + 2 == |r|)
  {
    ParseRequest(pid, line);
    hide Lines, Request, PathOf, WellCut, Parse, CString;
    var s := files.content[PathOf(pid, line)];
    LinesOfText(s, 255);
    LinesWellCut(s, 255, k);
  }

  /** A reply ends with an empty message. */
  lemma ReplyEnds(files: Files, pid: int, line: string)
    requires IsPid(pid)
    ensures var r := Reply(files, Request(pid, line)); r != [] && r[|r| - 1] == ""
  {
    ParseRequest(pid, line);
  }

  lemma {:induction false} DeliveredMeans(s: string)
    ensures Delivered(s) == Concat(UpToEmpty(CStrings(Lines(s, MAXMESGDATA - 1)) + [""]))
  {
  }

  lemma {:induction false} RefusalPrinted(c: string)
    requires c != ""
    ensures Concat(UpToEmpty([c] + [""])) == c
  {
    UpToEmptyIs([c] + [""], 1);
    assert ([c] + [""])[..2] == [c] + [""];
    ConcatCons(c, [""]);
    ConcatCons("", []);
  }

  /** What a client that reads its reply up to the first empty message prints. */
  lemma PrintedReply(files: Files, pid: int, line: string)
    requires IsPid(pid)
    ensures var path := PathOf(pid, line);
            var printed := Concat(UpToEmpty(Reply(files, Request(pid, line))));
            && |Request(pid, line)| < MAXMESGDATA
            && (path in files.content ==> (printed == files.content[path] <==> '\0' !in files.content[path]))
            && (path !in files.content ==> printed == Complaint(path, files.reason, |Request(pid, line)|))
  {
    hide UpToEmpty, Concat, Delivered, CStrings, Lines;
    ParseRequest(pid, line);
    var path := PathOf(pid, line);
    if path in files.content {
      DeliveredMeans(files.content[path]);
      WholeFileIffText(files.content[path]);
    } else {
      RequestText(pid, line);
      PidLength(pid);
      RefusalPrinted(Complaint(path, files.reason, |Request(pid, line)|));
    }
  }

  // ----- the queue

  /** The contents of the messages of one type, in order. */
  function OfType(q: seq<Mesg>, ty: int): seq<string> {
    if q == [] then [] else (if q[0].mtype == ty then [q[0].data] else []) + OfType(q[1..], ty)
  }

  /** What msgrcv(type) leaves: the first message of the type is gone. */
  function Without(q: seq<Mesg>, ty: int): seq<Mesg>
    requires OfType(q, ty) != []
  {
    if q[0].mtype == ty then q[1..] else [q[0]] + Without(q[1..], ty)
  }

  lemma {:induction false} OfTypeAppend(q: seq<Mesg>, m: Mesg, ty: int)
    ensures OfType(q + [m], ty) == OfType(q, ty) + if m.mtype == ty then [m.data] else []
  {
    var u := q + [m];
    if q == [] {
      assert u[1..] == [];
    } else {
      assert u[0] == q[0] && u[1..] == q[1..] + [m];
      OfTypeAppend(q[1..], m, ty);
      var x := if q[0].mtype == ty then [q[0].data] else [];
      var rest, y := OfType(q[1..], ty), if m.mtype == ty then [m.data] else [];
      assert x + (rest + y) == (x + rest) + y;
    }
  }

  /** Receiving by type takes the oldest message of that type and leaves all others in order. */
  lemma {:induction false} OfTypeWithout(q: seq<Mesg>, ty: int, other: int)
    requires OfType(q, ty) != []
    ensures OfType(Without(q, ty), other) == if other == ty then OfType(q, ty)[1..] else OfType(q, other)
  {
    if q[0].mtype != ty {
      var rest := Without(q[1..], ty);
      OfTypeWithout(q[1..], ty, other);
      assert ([q[0]] + rest)[1..] == rest;
    }
  }

  // ----- the protocol

  datatype Stage = Asking | Reading | Done

  /** `got`: the contents of the messages this client has received. */
  datatype Client = Client(pid: int, line: string, stage: Stage, got: seq<string>)

  /** `rest`: what is still to be sent to the client that is being served. */
  datatype Server = Idle | Sending(to: nat, pid: int, rest: seq<string>)

  /** `order`: whose requests lie in the queue, oldest first.  It and `to` are history: no step
   *  depends on them. */
  datatype State = State(queue: seq<Mesg>, server: Server, clients: seq<Client>, order: seq<nat>)

  datatype Step = Ask(i: nat) | Read(i: nat) | Accept | Answer

  predicate Enabled(s: State, step: Step) {
    match step
    case Ask(i) => i < |s.clients| && s.clients[i].stage.Asking? && IsPid(s.clients[i].pid)
    case Read(i) => i < |s.clients| && s.clients[i].stage.Reading? && OfType(s.queue, s.clients[i].pid) != []
    case Accept => s.server.Idle? && OfType(s.queue, 1) != []
    case Answer => s.server.Sending? && s.server.rest != []
  }

  function AfterRead(c: Client, x: string): Client {
    c.(got := c.got + [x], stage := if x == "" then Done else Reading)
  }

  function Accepted(f: Files, data: string, to: nat): Server {
    match Parse(data)
    case None => Idle
    case Some((pid, _)) => Sending(to, pid, Reply(f, data))
  }

  function Apply(f: Files, s: State, step: Step): State
    requires Enabled(s, step)
  {
    match step
    case Ask(i) =>
      var c := s.clients[i];
      s.(queue := s.queue + [Mesg(1, Request(c.pid, c.line))], order := s.order + [i],
         clients := s.clients[i := c.(stage := Reading)])
    case Read(i) =>
      var c := s.clients[i];
      s.(queue := Without(s.queue, c.pid),
         clients := s.clients[i := AfterRead(c, OfType(s.queue, c.pid)[0])])
    case Accept =>
      s.(queue := Without(s.queue, 1),
         server := Accepted(f, OfType(s.queue, 1)[0], if s.order == [] then 0 else s.order[0]),
         order := if s.order == [] then [] else s.order[1..])
    case Answer =>
      s.(queue := s.queue + [Mesg(s.server.pid, s.server.rest[0])],
         server := if |s.server.rest| == 1 then Idle else s.server.(rest := s.server.rest[1..]))
  }

  ghost predicate Legal(f: Files, s: State, run: seq<Step>)
    decreases |run|
  {
    run == [] || (Enabled(s, run[0]) && Legal(f, Apply(f, s, run[0]), run[1..]))
  }

  ghost function Exec(f: Files, s: State, run: seq<Step>): State
    requires Legal(f, s, run)
    decreases |run|
  {
    if run == [] then s else Exec(f, Apply(f, s, run[0]), run[1..])
  }

  /** A client is started with a pid and a line to read from its standard input. */
  ghost predicate Start(s: State) {
    && s.queue == [] && s.server.Idle? && s.order == [] && Pids(s.clients)
    && forall i: nat | i < |s.clients| :: s.clients[i].stage.Asking? && s.clients[i].got == []
  }

  // ----- invariant

  ghost predicate Pids(cs: seq<Client>) {
    && (forall i: nat | i < |cs| :: IsPid(cs[i].pid) && cs[i].pid != 1)
    && (forall i: nat, j: nat | i < j < |cs| :: cs[i].pid != cs[j].pid)
  }

  function ReplyTo(f: Files, c: Client): seq<string> {
    if IsPid(c.pid) then Reply(f, Request(c.pid, c.line)) else []
  }

  /** The part of a client's reply that has not been sent. */
  function Unsent(f: Files, s: State, i: nat): seq<string>
    requires i < |s.clients|
  {
    if s.clients[i].stage.Asking? || i in s.order then ReplyTo(f, s.clients[i])
    else if s.server.Sending? && s.server.to == i then s.server.rest
    else []
  }

  ghost predicate Requests(s: State) {
    && |s.order| == |OfType(s.queue, 1)|
    && (forall k | 0 <= k < |s.order| ::
          && s.order[k] < |s.clients|
          && var c := s.clients[s.order[k]];
             !c.stage.Asking? && IsPid(c.pid) && OfType(s.queue, 1)[k] == Request(c.pid, c.line))
    && (forall j, k | 0 <= j < k < |s.order| :: s.order[j] != s.order[k])
  }

  ghost predicate Serves(s: State) {
    s.server.Sending? ==>
      && s.server.rest != [] && s.server.to < |s.clients| && s.server.to !in s.order
      && s.server.pid == s.clients[s.server.to].pid && !s.clients[s.server.to].stage.Asking?
  }

  /** Received, queued and unsent make up a client's own reply. */
  ghost predicate Account(f: Files, s: State, i: nat)
    requires i < |s.clients|
  {
    s.clients[i].got + OfType(s.queue, s.clients[i].pid) + Unsent(f, s, i) == ReplyTo(f, s.clients[i])
  }

  /** A client goes on until its first empty message. */
  predicate GoesOn(c: Client) {
    && (c.stage.Done? ==> c.got != [] && c.got[|c.got| - 1] == "")
    && (forall k | 0 <= k < |c.got| :: c.got[k] == "" ==> c.stage.Done? && k == |c.got| - 1)
  }

  ghost predicate Inv(f: Files, s: State) {
    && Pids(s.clients) && Requests(s) && Serves(s)
    && (forall i: nat | i < |s.clients| :: Account(f, s, i))
    && (forall i: nat | i < |s.clients| :: GoesOn(s.clients[i]))
  }

  lemma StartInv(f: Files, s: State)
    requires Start(s)
    ensures Inv(f, s)
  {
  }

  /** The steps still to be made on behalf of a client: its request sent, taken, and each message
   *  of its reply sent and received. */
  function StepsLeft(f: Files, s: State, i: nat): (n: int)
    requires i < |s.clients|
    ensures n >= 0
  {
    (if s.clients[i].stage.Asking? then 2 else if i in s.order then 1 else 0)
    + 2 * |Unsent(f, s, i)| + |OfType(s.queue, s.clients[i].pid)|
  }

  /** The client on whose behalf a step is made. */
  function For(s: State, step: Step): nat
    requires Enabled(s, step)
  {
    match step
    case Ask(i) => i
    case Read(i) => i
    case Accept => if s.order == [] then 0 else s.order[0]
    case Answer => s.server.to
  }

  lemma AskAt(f: Files, s: State, i: nat, k: nat)
    requires Inv(f, s) && Enabled(s, Ask(i)) && k < |s.clients|
    ensures Account(f, Apply(f, s, Ask(i)), k)
    ensures StepsLeft(f, Apply(f, s, Ask(i)), k) == StepsLeft(f, s, k) - if k == For(s, Ask(i)) then 1 else 0
  {
    hide OfType, Request, Reply, GoesOn;
    assert Account(f, s, k);
    OfTypeAppend(s.queue, Mesg(1, Request(s.clients[i].pid, s.clients[i].line)), s.clients[k].pid);
  }

  lemma AskInv(f: Files, s: State, i: nat)
    requires Inv(f, s) && Enabled(s, Ask(i))
    ensures Inv(f, Apply(f, s, Ask(i)))
  {
    hide OfType, Without, Request, Reply, Account;
    OfTypeAppend(s.queue, Mesg(1, Request(s.clients[i].pid, s.clients[i].line)), 1);
    forall k: nat | k < |s.clients| ensures Account(f, Apply(f, s, Ask(i)), k) { AskAt(f, s, i, k); }
  }

  lemma ReadAt(f: Files, s: State, i: nat, k: nat)
    requires Inv(f, s) && Enabled(s, Read(i)) && k < |s.clients|
    ensures Account(f, Apply(f, s, Read(i)), k)
    ensures StepsLeft(f, Apply(f, s, Read(i)), k) == StepsLeft(f, s, k) - if k == For(s, Read(i)) then 1 else 0
  {
    hide OfType, Without, Request, Reply, Requests, GoesOn;
    assert Account(f, s, k);
    var pid := s.clients[i].pid;
    OfTypeWithout(s.queue, pid, s.clients[k].pid);
    if k == i {
      var a := OfType(s.queue, pid);
      assert a == [a[0]] + a[1..];
    }
  }

  lemma ReadInv(f: Files, s: State, i: nat)
    requires Inv(f, s) && Enabled(s, Read(i))
    ensures Inv(f, Apply(f, s, Read(i)))
  {
    hide OfType, Without, Request, Reply, Account;
    assert GoesOn(AfterRead(s.clients[i], OfType(s.queue, s.clients[i].pid)[0]));
    OfTypeWithout(s.queue, s.clients[i].pid, 1);
    forall k: nat | k < |s.clients| ensures Account(f, Apply(f, s, Read(i)), k) { ReadAt(f, s, i, k); }
  }

  lemma AcceptAt(f: Files, s: State, k: nat)
    requires Inv(f, s) && Enabled(s, Accept) && k < |s.clients|
    ensures Account(f, Apply(f, s, Accept), k)
    ensures StepsLeft(f, Apply(f, s, Accept), k) == StepsLeft(f, s, k) - if k == For(s, Accept) then 1 else 0
  {
    hide OfType, Without, Request, Reply, Parse, GoesOn;
    assert Account(f, s, k);
    var c := s.clients[s.order[0]];
    ParseRequest(c.pid, c.line);
    OfTypeWithout(s.queue, 1, s.clients[k].pid);
  }

  lemma AcceptKeepsRequests(f: Files, s: State)
    requires Inv(f, s) && Enabled(s, Accept)
    ensures Requests(Apply(f, s, Accept))
  {
    hide OfType, Without, Request, Reply, Account, Accepted, GoesOn, Pids, Serves;
    OfTypeWithout(s.queue, 1, 1);
  }

  lemma AcceptServes(f: Files, s: State)
    requires Inv(f, s) && Enabled(s, Accept)
    ensures Serves(Apply(f, s, Accept))
  {
    hide OfType, Without, Request, Reply, Account, Parse, GoesOn;
    var c := s.clients[s.order[0]];
    ParseRequest(c.pid, c.line);
    ReplyEnds(f, c.pid, c.line);
  }

  lemma AcceptInv(f: Files, s: State)
    requires Inv(f, s) && Enabled(s, Accept)
    ensures Inv(f, Apply(f, s, Accept))
  {
    hide OfType, Without, Request, Reply, Account, Requests, Serves;
    AcceptKeepsRequests(f, s);
    AcceptServes(f, s);
    forall k: nat | k < |s.clients| ensures Account(f, Apply(f, s, Accept), k) { AcceptAt(f, s, k); }
  }

  lemma AnswerAt(f: Files, s: State, k: nat)
    requires Inv(f, s) && Enabled(s, Answer) && k < |s.clients|
    ensures Account(f, Apply(f, s, Answer), k)
    ensures StepsLeft(f, Apply(f, s, Answer), k) == StepsLeft(f, s, k) - if k == For(s, Answer) then 1 else 0
  {
    hide OfType, Request, Reply, Requests, GoesOn;
    assert Account(f, s, k);
    var rest := s.server.rest;
    OfTypeAppend(s.queue, Mesg(s.server.pid, rest[0]), s.clients[k].pid);
    if k == s.server.to { assert rest == [rest[0]] + rest[1..]; }
  }

  lemma AnswerInv(f: Files, s: State)
    requires Inv(f, s) && Enabled(s, Answer)
    ensures Inv(f, Apply(f, s, Answer))
  {
    hide OfType, Without, Request, Reply, Account;
    OfTypeAppend(s.queue, Mesg(s.server.pid, s.server.rest[0]), 1);
    forall k: nat | k < |s.clients| ensures Account(f, Apply(f, s, Answer), k) { AnswerAt(f, s, k); }
  }

  lemma StepInv(f: Files, s: State, step: Step)
    requires Inv(f, s) && Enabled(s, step)
    ensures Inv(f, Apply(f, s, step))
  {
    hide *;
    match step
    case Ask(i) => AskInv(f, s, i);
    case Read(i) => ReadInv(f, s, i);
    case Accept => AcceptInv(f, s);
    case Answer => AnswerInv(f, s);
  }

  lemma {:induction false} RunInv(f: Files, s: State, run: seq<Step>)
    requires Inv(f, s) && Legal(f, s, run)
    ensures Inv(f, Exec(f, s, run))
    decreases |run|
  {
    hide Inv, Enabled, Apply;
    if run != [] {
      StepInv(f, s, run[0]);
      RunInv(f, Apply(f, s, run[0]), run[1..]);
    }
  }

  // ----- progress

  function Remaining(f: Files, s: State): seq<int> {
    seq(|s.clients|, i requires 0 <= i < |s.clients| => StepsLeft(f, s, i))
  }

  function Same(n: int): int { n }

  lemma ForAClient(f: Files, s: State, step: Step)
    requires Inv(f, s) && Enabled(s, step)
    ensures For(s, step) < |s.clients|
  {
  }

  lemma OneStepLess(f: Files, s: State, step: Step, k: nat)
    requires Inv(f, s) && Enabled(s, step) && k < |s.clients|
    ensures StepsLeft(f, Apply(f, s, step), k) == StepsLeft(f, s, k) - if k == For(s, step) then 1 else 0
  {
    hide Inv, Enabled, Apply, StepsLeft;
    match step
    case Ask(i) => AskAt(f, s, i, k);
    case Read(i) => ReadAt(f, s, i, k);
    case Accept => AcceptAt(f, s, k);
    case Answer => AnswerAt(f, s, k);
  }

  lemma RemainingDecreases(f: Files, s: State, step: Step)
    requires Inv(f, s) && Enabled(s, step)
    ensures 0 <= Sum(Remaining(f, Apply(f, s, step)), Same) == Sum(Remaining(f, s), Same) - 1
  {
    hide Inv, Apply, Enabled, StepsLeft, Sum;
    var before, after := Remaining(f, s), Remaining(f, Apply(f, s, step));
    var i := For(s, step);
    assert |Apply(f, s, step).clients| == |s.clients| by { SameClients(f, s, step); }
    ForAClient(f, s, step);
    forall k: nat | k < |s.clients| ensures after[k] == before[k] - if k == i then 1 else 0 {
      OneStepLess(f, s, step, k);
    }
    var less := before[i] - 1;
    assert after == before[i := less];
    SumUpdate(before, i, less, Same);
    SumNonNegative(after, Same);
  }

  lemma SameClients(f: Files, s: State, step: Step)
    requires Enabled(s, step)
    ensures |Apply(f, s, step).clients| == |s.clients|
  {
  }

  lemma {:induction false} RunBounded(f: Files, s: State, run: seq<Step>)
    requires Inv(f, s) && Legal(f, s, run)
    ensures |run| <= Sum(Remaining(f, s), Same)
    decreases |run|
  {
    hide Inv, Enabled, Apply, StepsLeft, Sum;
    SumNonNegative(Remaining(f, s), Same);
    if run != [] {
      StepInv(f, s, run[0]);
      RemainingDecreases(f, s, run[0]);
      RunBounded(f, Apply(f, s, run[0]), run[1..]);
    }
  }

  ghost predicate Stuck(s: State) {
    forall step: Step :: !Enabled(s, step)
  }

  lemma StuckIsDone(f: Files, s: State, i: nat)
    requires Inv(f, s) && Stuck(s) && i < |s.clients|
    ensures s.clients[i].stage.Done? && s.clients[i].got == UpToEmpty(ReplyTo(f, s.clients[i]))
  {
    hide OfType, Request, Reply, UpToEmpty;
    var c := s.clients[i];
    assert !Enabled(s, Ask(i)) && !Enabled(s, Read(i)) && !Enabled(s, Accept) && !Enabled(s, Answer);
    assert Account(f, s, i);
    if c.stage.Reading? {
      ReplyEnds(f, c.pid, c.line);
      assert false;
    }
    UpToEmptyIs(ReplyTo(f, c), |c.got| - 1);
  }

  /** Whose request and whose files do not change. */
  lemma {:induction false} RunKeepsClients(f: Files, s: State, run: seq<Step>)
    requires Legal(f, s, run)
    ensures var r := Exec(f, s, run);
            && |r.clients| == |s.clients|
            && forall i: nat | i < |s.clients| ::
                 r.clients[i].pid == s.clients[i].pid && r.clients[i].line == s.clients[i].line
    decreases |run|
  {
    hide OfType, Without, Request, Reply, Parse;
    if run != [] { RunKeepsClients(f, Apply(f, s, run[0]), run[1..]); }
  }

  /** For any number of clients with different pids and any interleaving, at every point: what a
   *  client has received, what is queued for it and what the server has still to send it make up
   *  the reply to its own request, in order; and the run is no longer than its start allows. */
  lemma {:induction false} NobodyTakesAnothers(f: Files, s: State, run: seq<Step>, i: nat)
    requires Start(s) && Legal(f, s, run) && i < |s.clients|
    ensures |run| <= Sum(Remaining(f, s), Same)
    ensures var r, c := Exec(f, s, run), s.clients[i];
            && |r.clients| == |s.clients|
            && r.clients[i].got + OfType(r.queue, c.pid) + Unsent(f, r, i) == ReplyTo(f, c)
  {
    hide OfType, Request, Reply, Apply, Enabled, Sum, StepsLeft, Requests, Serves, Unsent;
    StartInv(f, s);
    RunBounded(f, s, run);
    RunInv(f, s, run);
    RunKeepsClients(f, s, run);
    assert Account(f, Exec(f, s, run), i);
  }

  /** ... and when no step is left every client has come to its end, having printed the file it
   *  asked for - the whole file if and only if that has no NUL in it - or the reason why there is
   *  none. */
  lemma {:induction false} EveryClientGetsItsOwn(f: Files, s: State, run: seq<Step>, i: nat)
    requires Start(s) && Legal(f, s, run) && i < |s.clients|
    ensures var r, pid, path := Exec(f, s, run), s.clients[i].pid, PathOf(s.clients[i].pid, s.clients[i].line);
            && |r.clients| == |s.clients| && |Request(pid, s.clients[i].line)| < MAXMESGDATA
            && (Stuck(r) ==>
                  && r.clients[i].stage.Done?
                  && var printed := Concat(r.clients[i].got);
                     if path in f.content then printed == f.content[path] <==> '\0' !in f.content[path]
                     else printed == Complaint(path, f.reason, |Request(pid, s.clients[i].line)|))
  {
    hide OfType, Request, Reply, UpToEmpty, Concat, Apply, Enabled, Complaint, PathOf, Requests, Serves, Account;
    StartInv(f, s);
    RunInv(f, s, run);
    RunKeepsClients(f, s, run);
    PrintedReply(f, s.clients[i].pid, s.clients[i].line);
    if Stuck(Exec(f, s, run)) { StuckIsDone(f, Exec(f, s, run), i); }
  }

  /** From a typed line to the printed answer: a client that has come to its end has printed
   *  exactly the text file it asked for; or, without such a file, the path and the reason, as far
   *  as the server's buffer holds them behind the request. */
  lemma {:induction false} TypedPathIsAnswered(f: Files, s: State, run: seq<Step>, i: nat, path: string)
    requires Start(s) && Legal(f, s, run) && Stuck(Exec(f, s, run)) && i < |s.clients|
    requires s.clients[i].line == path + "\n" && PlainPath(path) && |Print(s.clients[i].pid)| + 1 + |path| < 256
    ensures var r, number := Exec(f, s, run), Print(s.clients[i].pid);
            && |r.clients| == |s.clients| && r.clients[i].stage.Done?
            && var printed, refusal := Concat(r.clients[i].got), path + ": can't open, " + f.reason + "\n";
               if path in f.content then '\0' !in f.content[path] ==> printed == f.content[path]
               else printed == if |number| + 1 + |refusal| < 256 then refusal else refusal[..254 - |number|]
  {
    var pid := s.clients[i].pid;
    assert IsPid(pid);
    hide Complaint, PathOf, Request, Concat, Start, Stuck, Apply, Enabled, OfType, Reply, UpToEmpty;
    AsksForThePath(pid, path);
    assert |Request(pid, path + "\n")| == |Print(pid)| + 1 + |path|;
    EveryClientGetsItsOwn(f, s, run, i);
    RefusalText(path, f.reason, |Print(pid)|);
  }

  lemma RefusalText(path: string, reason: string, digits: nat)
    requires digits + 1 + |path| < 256
    ensures var refusal := path + ": can't open, " + reason + "\n";
            && (digits + 1 + |refusal| >= 256 ==> 254 - digits <= |refusal|)
            && Complaint(path, reason, digits + 1 + |path|)
            == if digits + 1 + |refusal| < 256 then refusal else refusal[..254 - digits]
  {
    var text := ": can't open, " + reason + "\n";
    assert path + ": can't open, " + reason + "\n" == path + text;
    if digits + 1 + |path + text| >= 256 {
      assert (path + text)[..254 - digits] == path + text[..254 - digits - |path|];
    }
  }

  // ----- the programs

  /** The messages of a list of texts for one client. */
  function Addressed(pid: int, texts: seq<string>): seq<Mesg> {
    seq(|texts|, k requires 0 <= k < |texts| => Mesg(pid, texts[k]))
  }

  lemma AddressedAppend(pid: int, texts: seq<string>, x: string)
    ensures Addressed(pid, texts + [x]) == Addressed(pid, texts) + [Mesg(pid, x)]
  {
  }

  lemma AddressedNobody(pid: int)
    ensures Addressed(pid, []) == []
  {
  }

  /** The client's buffer: "pid ", what fgets puts behind it, and the newline dropped. */
  method FormatRequest(pid: int, line: string) returns (data: string)
    requires IsPid(pid)
    ensures data == Request(pid, line)
    ensures forall path | line == path + "\n" && PlainPath(path) && |Print(pid)| + 1 + |path| < 256 ::
              data == Print(pid) + " " + path
  {
    forall path | line == path + "\n" && PlainPath(path) && |Print(pid)| + 1 + |path| < 256
      ensures Request(pid, line) == Print(pid) + " " + path
    {
      AsksForThePath(pid, path);
    }
    PidLength(pid);
    hide Print, Fgets, CString;
    var start := Print(pid) + " ";
    var typed := CString(Fgets(line, MAXMESGDATA - |start| - 1));
    data := start + typed;
    assert Request(pid, line) == Chomp(data);
    var len := |data|;
    if data[len - 1] == '\n' { len := len - 1; }
    data := data[..len];
  }

  class Service {
    const f: Files
    var queue: seq<Mesg>
    var server: Server
    var clients: seq<Client>
    var order: seq<nat>

    function View(): State
      reads this
    {
      State(queue, server, clients, order)
    }

    constructor (f: Files, started: seq<(int, string)>)
      requires forall i: nat | i < |started| :: IsPid(started[i].0) && started[i].0 != 1
      requires forall i: nat, j: nat | i < j < |started| :: started[i].0 != started[j].0
      ensures this.f == f && Start(View()) && |clients| == |started|
      ensures forall i: nat | i < |started| :: (clients[i].pid, clients[i].line) == started[i]
    {
      this.f := f;
      queue, server, order := [], Idle, [];
      clients := seq(|started|, i requires 0 <= i < |started| => Client(started[i].0, started[i].1, Asking, []));
    }

    method MesgSend(m: Mesg)
      modifies this`queue
      ensures queue == old(queue) + [m]
      ensures forall ty :: OfType(queue, ty) == OfType(old(queue), ty) + if m.mtype == ty then [m.data] else []
    {
      forall ty ensures OfType(queue + [m], ty) == OfType(queue, ty) + if m.mtype == ty then [m.data] else [] {
        OfTypeAppend(queue, m, ty);
      }
      queue := queue + [m];
    }

    method MesgRecv(ty: int) returns (data: string)
      requires OfType(queue, ty) != []
      modifies this`queue
      ensures data == OfType(old(queue), ty)[0] && queue == Without(old(queue), ty)
      ensures forall other ::
                OfType(queue, other) == if other == ty then OfType(old(queue), ty)[1..] else OfType(old(queue), other)
    {
      forall other
        ensures OfType(Without(queue, ty), other) == if other == ty then OfType(queue, ty)[1..] else OfType(queue, other)
      {
        OfTypeWithout(queue, ty, other);
      }
      data := OfType(queue, ty)[0];
      queue := Without(queue, ty);
    }

    /** The client's half before its loop. */
    method ClientAsks(i: nat)
      requires Enabled(View(), Ask(i))
      modifies this
      ensures View() == Apply(f, old(View()), Ask(i))
    {
      hide OfType, Request;
      var c := clients[i];
      var data := FormatRequest(c.pid, c.line);
      MesgSend(Mesg(1, data));
      clients := clients[i := c.(stage := Reading)];
      order := order + [i];
    }

    /** Once around the client's loop. */
    method ClientReads(i: nat)
      requires Enabled(View(), Read(i))
      modifies this
      ensures View() == Apply(f, old(View()), Read(i))
    {
      var c := clients[i];
      var data := MesgRecv(c.pid);
      clients := clients[i := c.(got := c.got + [data], stage := if data == "" then Done else Reading)];
    }

    /** The server takes a request. */
    method ServerAccepts()
      requires Enabled(View(), Accept)
      modifies this
      ensures View() == Apply(f, old(View()), Accept)
    {
      var to := if order == [] then 0 else order[0];
      var data := MesgRecv(1);
      var request := Parse(data);
      server := if request.Some? then Sending(to, request.value.0, Reply(f, data)) else Idle;
      order := if order == [] then [] else order[1..];
    }

    /** One message of a reply. */
    method ServerAnswers()
      requires Enabled(View(), Answer)
      modifies this
      ensures View() == Apply(f, old(View()), Answer)
    {
      var rest := server.rest;
      MesgSend(Mesg(server.pid, rest[0]));
      server := if |rest| == 1 then Idle else server.(rest := rest[1..]);
    }

    /** The server's copying loop, undisturbed. */
    method SendLines(pid: int, content: string)
      modifies this`queue
      ensures queue == old(queue) + Addressed(pid, CStrings(Lines(content, MAXMESGDATA - 1)))
    {
      hide CString, CStrings, Lines, LineLength, Addressed;
      var rest := content;
      ghost var sent: seq<string> := [];
      AddressedNobody(pid);
      while rest != ""
        invariant queue == old(queue) + Addressed(pid, sent)
        invariant sent + CStrings(Lines(rest, MAXMESGDATA - 1)) == CStrings(Lines(content, MAXMESGDATA - 1))
        decreases |rest|
      {
        LinesStep(rest);
        var line := Fgets(rest, MAXMESGDATA - 1);
        rest := rest[|line|..];
        MesgSend(Mesg(pid, CString(line)));
        AddressedAppend(pid, sent, CString(line));
        sent := sent + [CString(line)];
      }
      NoLines();
      assert sent + [] == sent;
    }

    /** The server's loop body behind the receive, undisturbed: the file by lines of at most 255
     *  characters, or the complaint, and the empty message. */
    method ServeRequest(data: string)
      requires |data| < MAXMESGDATA
      modifies this`queue
      ensures queue == old(queue) + Addressed(if Parse(data).Some? then Parse(data).value.0 else 0, Reply(f, data))
    {
      hide CStrings, Lines, Parse, Complaint;
      var request := Parse(data);
      if request == None { return; }
      var (pid, path) := request.value;
      ghost var body := if path in f.content then CStrings(Lines(f.content[path], MAXMESGDATA - 1))
                        else [Refusal(path, f.reason, data)];
      if path in f.content {
        SendLines(pid, f.content[path]);
      } else {
        var refusal := path;
        if '\0' !in data { refusal := Complaint(path, f.reason, |data|); }
        MesgSend(Mesg(pid, refusal));
      }
      assert queue == old(queue) + Addressed(pid, body);
      MesgSend(Mesg(pid, ""));
      AddressedAppend(pid, body, "");
    }

    /** Clients and server under any scheduler. */
    method RunToTheEnd()
      requires Start(View())
      modifies this
      ensures forall i: nat | i < |clients| ::
                clients[i].stage.Done? && clients[i].got == UpToEmpty(ReplyTo(f, clients[i]))
    {
      hide Inv, Apply, Sum, StepsLeft, OfType, UpToEmpty;
      StartInv(f, View());
      var n := |clients|;
      while exists j: nat | j < 2 * n + 2 :: Enabled(View(), StepNumber(n, j))
        invariant Inv(f, View()) && |clients| == n
        decreases Sum(Remaining(f, View()), Same)
      {
        ghost var before := View();
        var j: nat :| j < 2 * n + 2 && Enabled(View(), StepNumber(n, j));
        SameClients(f, before, StepNumber(n, j));
        StepInv(f, before, StepNumber(n, j));
        RemainingDecreases(f, before, StepNumber(n, j));
        match StepNumber(n, j)
        case Ask(i) => ClientAsks(i);
        case Read(i) => ClientReads(i);
        case Accept => ServerAccepts();
        case Answer => ServerAnswers();
      }
      StuckByNumber(View());
      forall i: nat | i < |clients|
        ensures clients[i].stage.Done? && clients[i].got == UpToEmpty(ReplyTo(f, clients[i]))
      {
        StuckIsDone(f, View(), i);
      }
    }
  }

  /** All steps that `n` clients and the server can ever make. */
  function StepNumber(n: nat, j: nat): Step {
    if j < n then Ask(j) else if j < 2 * n then Read(j - n) else if j == 2 * n then Accept else Answer
  }

  lemma StuckByNumber(s: State)
    requires var n := |s.clients|; forall j: nat | j < 2 * n + 2 :: !Enabled(s, StepNumber(n, j))
    ensures Stuck(s)
  {
    var n := |s.clients|;
    forall step: Step ensures !Enabled(s, step) {
      var j := match step
        case Ask(i) => if i < n then i else 0
        case Read(i) => if i < n then n + i else 0
        case Accept => 2 * n
        case Answer => 2 * n + 1;
      assert !Enabled(s, StepNumber(n, j));
    }
  }

  lemma NoLines()
    ensures CStrings(Lines("", MAXMESGDATA - 1)) == []
  {
  }
}
