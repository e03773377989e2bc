/** The C library's text conversions that the programs use: "%ld" out and in, and fgets. */
module Text {
  import opened Basics

  predicate IsDigit(c: char) { '0' <= c <= '9' }

  predicate IsSpace(c: char) { c == ' ' || '\t' <= c <= '\r' }

  function Digit(d: nat): (c: char)
    requires d < 10
    ensures IsDigit(c) && DigitValue(c) == d
  {
    ('0' as int + d) as char
  }

  function DigitValue(c: char): nat
    requires IsDigit(c)
  {
    c as int - '0' as int
  }

  function Digits(n: nat): (s: string)
    ensures s != "" && forall i | 0 <= i < |s| :: IsDigit(s[i])
  {
    if n < 10 then [Digit(n)] else Digits(n / 10) + [Digit(n % 10)]
  }

  /** printf("%ld"). */
  function Print(n: int): string {
    if n < 0 then "-" + Digits(-n) else Digits(n)
  }

  /** Decimal notation: a digit's character, one more digit behind a number, the minus sign. */
  lemma {:induction false} Decimal(n: nat, d: nat)
    requires d < 10
    ensures Print(d) == ["0123456789"[d]]
    ensures n > 0 ==> Print(10 * n + d) == Print(n) + Print(d) && Print(-(n as int)) == "-" + Print(n)
  {
    if n > 0 {
      assert (10 * n + d) / 10 == n && (10 * n + d) % 10 == d;
    }
  }

  /** The digits at the front of `s`, read behind the value `acc`. */
  function Value(s: string, acc: nat): nat {
    if s == "" || !IsDigit(s[0]) then acc else Value(s[1..], 10 * acc + DigitValue(s[0]))
  }

  function SkipSpace(s: string): string {
    if s == "" || !IsSpace(s[0]) then s else SkipSpace(s[1..])
  }

  /** sscanf("%ld"): white space, an optional sign, digits up to the first other character.
   *  None: no digits, no conversion. */
  function Scan(s: string): Option<int> {
    var t := SkipSpace(s);
    var minus := t != "" && t[0] == '-';
    var u := if t != "" && (t[0] == '-' || t[0] == '+') then t[1..] else t;
    if u == "" || !IsDigit(u[0]) then None
    else
      var v: int := Value(u, 0);
      Some(if minus then -v else v)
  }

  /** atol: 0 where nothing converts. */
  function Atol(s: string): int {
    match Scan(s) case None => 0 case Some(n) => n
  }

  lemma {:induction false} ValueAppend(a: string, b: string, acc: nat)
    requires forall i | 0 <= i < |a| :: IsDigit(a[i])
    ensures Value(a + b, acc) == Value(b, Value(a, acc))
  {
    if a == "" {
      assert a + b == b;
    } else {
      assert (a + b)[1..] == a[1..] + b;
      ValueAppend(a[1..], b, 10 * acc + DigitValue(a[0]));
    }
  }

  predicate NoDigitAhead(tail: string) { tail == "" || !IsDigit(tail[0]) }

  lemma {:induction false} ValueOfDigits(n: nat, tail: string)
    requires NoDigitAhead(tail)
    ensures Value(Digits(n) + tail, 0) == n
  {
    ValueAppend(Digits(n), tail, 0);
    if n < 10 {
      assert Value([Digit(n)], 0) == Value([Digit(n)][1..], n);
    } else {
      var d := [Digit(n % 10)];
      ValueAppend(Digits(n / 10), d, 0);
      ValueOfDigits(n / 10, "");
      assert Digits(n / 10) + "" == Digits(n / 10);
      assert Value(d, n / 10) == Value(d[1..], 10 * (n / 10) + n % 10);
    }
  }

  /** What sscanf() makes of a text that starts with a digit, or with a minus and a digit. */
  lemma {:induction false} ScanDigits(s: string)
    requires s != "" && IsDigit(s[0])
    ensures var v: int := Value(s, 0);
            Scan(s) == Some(v) && Scan("-" + s) == Some(-v)
  {
    hide Value;
    var t := "-" + s;
    assert t[0] == '-' && t[1..] == s;
    assert SkipSpace(s) == s && SkipSpace(t) == t;
  }

  /** Reading back what was printed, whatever stands behind it. */
  lemma ScanPrint(n: int, tail: string)
    requires NoDigitAhead(tail)
    ensures Scan(Print(n) + tail) == Some(n)
  {
    hide Value, Scan, Digits;
    var m: nat := if n < 0 then -n else n;
    ValueOfDigits(m, tail);
    ScanDigits(Digits(m) + tail);
    if n < 0 { assert "-" + Digits(m) + tail == "-" + (Digits(m) + tail); }
  }

  lemma {:induction false} SpaceSkipped(space: string, s: string)
    requires forall i | 0 <= i < |space| :: IsSpace(space[i])
    requires s == "" || !IsSpace(s[0])
    ensures SkipSpace(space + s) == s
  {
    if space == "" {
      assert space + s == s;
    } else {
      assert (space + s)[1..] == space[1..] + s;
      SpaceSkipped(space[1..], s);
    }
  }

  /** White space in front, a plus or a minus sign and whatever follows the digits are read past. */
  lemma {:induction false} ScanForm(space: string, sign: string, n: nat, tail: string)
    requires forall i | 0 <= i < |space| :: IsSpace(space[i])
    requires sign in {"", "+", "-"} && NoDigitAhead(tail)
    ensures var v: int := n; Scan(space + (sign + Digits(n) + tail)) == Some(if sign == "-" then -v else v)
  {
    hide Value, Digits, SkipSpace;
    var digits := Digits(n) + tail;
    ValueOfDigits(n, tail);
    var s := sign + Digits(n) + tail;
    assert s == sign + digits && digits[0] == Digits(n)[0];
    if sign == "" { assert s == digits; } else { assert s[0] == sign[0] && s[1..] == digits; }
    SpaceSkipped(space, s);
    assert SkipSpace(space + s) == s;
  }

  function Power10(k: nat): nat { if k == 0 then 1 else 10 * Power10(k - 1) }

  /** A number below 10^k has at most k digits. */
  lemma {:induction false} DigitsLength(n: nat, k: nat, bound: nat)
    requires k > 0 && bound == Power10(k) && n < bound
    ensures |Digits(n)| <= k
  {
    if n >= 10 { DigitsLength(n / 10, k - 1, bound / 10); }
  }

  /** The C string in a buffer: the characters before the first NUL. */
  function CString(s: string): (c: string)
    ensures |c| <= |s| && c == s[..|c|] && '\0' !in c && (c == s <==> '\0' !in s)
  {
    if s == "" || s[0] == '\0' then "" else [s[0]] + CString(s[1..])
  }

  /** How many characters fgets(buf, size) takes: at most size - 1, up to the first newline. */
  function LineLength(s: string, limit: nat): (n: nat)
    ensures n <= limit && n <= |s|
    ensures forall i | 0 <= i < n - 1 :: s[i] != '\n'
    ensures s != "" && limit > 0 ==> n > 0
    ensures n < limit && n < |s| ==> n > 0 && s[n - 1] == '\n'
  {
    if s == "" || limit == 0 then 0
    else if s[0] == '\n' then 1
    else
      var m := LineLength(s[1..], limit - 1);
      assert forall i | 1 <= i < m :: s[i] == s[1..][i - 1];
      m + 1
  }

  /** fgets(buf, limit + 1). */
  function Fgets(s: string, limit: nat): string {
    s[..LineLength(s, limit)]
  }

  /** A file read with fgets to its end. */
  function Lines(s: string, limit: nat): (l: seq<string>)
    requires limit > 0
    ensures forall i | 0 <= i < |l| :: 0 < |l[i]| <= limit
  {
    if s == "" then [] else [Fgets(s, limit)] + Lines(s[LineLength(s, limit)..], limit)
  }

  function Concat(l: seq<string>): string {
    if l == [] then "" else l[0] + Concat(l[1..])
  }

  lemma {:induction false} FirstLine(s: string, limit: nat)
    requires limit > 0 && s != ""
    ensures var n := LineLength(s, limit);
            n <= |s| && n > 0 && Concat(Lines(s, limit)) == s[..n] + Concat(Lines(s[n..], limit))
  {
    var n := LineLength(s, limit);
    assert ([s[..n]] + Lines(s[n..], limit))[1..] == Lines(s[n..], limit);
  }

  /** A piece that ends with its only newline, or fills the buffer, or is the last. */
  predicate WellCut(piece: string, limit: nat, last: bool) {
    && piece != "" && '\n' !in piece[..|piece| - 1]
    && (piece[|piece| - 1] == '\n' || |piece| == limit || last)
  }

  lemma {:induction false} FirstWellCut(s: string, limit: nat)
    requires limit > 0 && s != ""
    ensures WellCut(Fgets(s, limit), limit, |Fgets(s, limit)| == |s|)
  {
    var n := LineLength(s, limit);
    assert forall i | 0 <= i < n - 1 :: s[..n][..n - 1][i] == s[i];
  }

  /** So is every line that fgets() delivers. */
  lemma {:induction false} LinesWellCut(s: string, limit: nat, k: nat)
    requires limit > 0 && k < |Lines(s, limit)|
    ensures WellCut(Lines(s, limit)[k], limit, k + 1 == |Lines(s, limit)|)
    decreases |s|
  {
    hide Fgets, WellCut;
    var line := Fgets(s, limit);
    var rest := s[LineLength(s, limit)..];
    assert Lines(s, limit) == [line] + Lines(rest, limit);
    if k == 0 {
      FirstWellCut(s, limit);
      assert |line| == |s| <==> rest == "" by { FgetsLength(s, limit); }
      assert rest != "" ==> Lines(rest, limit) != [];
      WellCutUnlessLast(line, limit, |line| == |s|, 1 == |Lines(s, limit)|);
    } else {
      LinesWellCut(rest, limit, k - 1);
    }
  }

  lemma {:induction false} FgetsLength(s: string, limit: nat)
    ensures |Fgets(s, limit)| == LineLength(s, limit)
  {
  }

  lemma WellCutUnlessLast(piece: string, limit: nat, a: bool, b: bool)
    requires WellCut(piece, limit, a) && (a ==> b)
    ensures WellCut(piece, limit, b)
  {
  }

  lemma {:induction false} LinesOfText(s: string, limit: nat)
    requires limit > 0 && '\0' !in s
    ensures forall i | 0 <= i < |Lines(s, limit)| :: '\0' !in Lines(s, limit)[i]
    decreases |s|
  {
    if s != "" { LinesOfText(s[LineLength(s, limit)..], limit); }
  }

  lemma {:induction false} NoLine(limit: nat)
    requires limit > 0
    ensures Concat(Lines("", limit)) == ""
  {
  }

  /** The lines of a file make up the file. */
  lemma {:induction false} ConcatLines(s: string, limit: nat)
    requires limit > 0
    ensures Concat(Lines(s, limit)) == s
    decreases |s|
  {
    hide Concat, Lines, LineLength;
    if s == "" {
      NoLine(limit);
    } else {
      FirstLine(s, limit);
      var n := LineLength(s, limit);
      var first, rest := s[..n], s[n..];
      ConcatLines(rest, limit);
      assert first + rest == s;
    }
  }
}
