/** The string operations the console parser and printer rest on, over the ASCII text a response decodes to. */
module Text {
  import opened Wrappers

  // Characters

  predicate IsLineBreak(c: char) {
    c == '\n' || c == '\r' || 11 <= c as int <= 12 || 28 <= c as int <= 30
  }

  predicate IsSpace(c: char) {
    c == ' ' || 9 <= c as int <= 13 || 28 <= c as int <= 31
  }

  predicate IsDigit(c: char) {
    '0' <= c <= '9'
  }

  function LowerChar(c: char): char {
    if 'A' <= c <= 'Z' then (c as int + 32) as char else c
  }

  /** s.lower() */
  function Lower(s: string): (r: string)
    ensures |r| == |s|
    ensures forall i :: 0 <= i < |s| ==> r[i] == LowerChar(s[i])
  {
    if s == "" then "" else [LowerChar(s[0])] + Lower(s[1..])
  }

  /** s.isdigit() */
  predicate AllDigits(s: string) {
    s != "" && forall i :: 0 <= i < |s| ==> IsDigit(s[i])
  }

  /** A token: what str.split() can return. */
  predicate IsWord(s: string) {
    s != "" && forall i :: 0 <= i < |s| ==> !IsSpace(s[i])
  }

  predicate OneLine(s: string) {
    forall i :: 0 <= i < |s| ==> !IsLineBreak(s[i])
  }

  predicate Blank(s: string) {
    forall i :: 0 <= i < |s| ==> IsSpace(s[i])
  }

  // split, splitlines, strip

  /** How many characters of s come before the first that stops. */
  function Until(s: string, stops: char -> bool): (n: nat)
    ensures n <= |s|
    ensures forall i :: 0 <= i < n ==> !stops(s[i])
    ensures n < |s| ==> stops(s[n])
  {
    if s == "" || stops(s[0]) then 0 else 1 + Until(s[1..], stops)
  }

  function LeftStrip(s: string): (r: string)
    ensures |r| <= |s|
    ensures r != "" ==> !IsSpace(r[0])
  {
    if s != "" && IsSpace(s[0]) then LeftStrip(s[1..]) else s
  }

  function RightStrip(s: string): string {
    if s != "" && IsSpace(s[|s| - 1]) then RightStrip(s[..|s| - 1]) else s
  }

  function Strip(s: string): string {
    RightStrip(LeftStrip(s))
  }

  /** s.split() */
  function Split(s: string): seq<string>
    decreases |s|
  {
    var t := LeftStrip(s);
    if t == "" then []
    else
      var n := Until(t, IsSpace);
      [t[..n]] + Split(t[n..])
  }

  /** s.splitlines() */
  function SplitLines(s: string): seq<string>
    decreases |s|
  {
    if s == "" then []
    else
      var n := Until(s, IsLineBreak);
      if n == |s| then [s]
      else if s[n] == '\r' && n + 1 < |s| && s[n + 1] == '\n' then [s[..n]] + SplitLines(s[n + 2..])
      else [s[..n]] + SplitLines(s[n + 1..])
  }

  // Numbers

  /** int and str give up on numbers with more digits than this. */
  const MAX_STR_DIGITS := 4300

  function DigitCount(s: string): (n: nat)
    ensures n <= |s|
  {
    if s == "" then 0 else (if IsDigit(s[0]) then 1 else 0) + DigitCount(s[1..])
  }

  /** int(s); None is the ValueError. */
  function ParseInt(s: string): Option<int> {
    var t := Strip(s);
    if t == "" || DigitCount(t) > MAX_STR_DIGITS then None
    else
      var n := ParseDigits(if t[0] == '-' || t[0] == '+' then t[1..] else t, false, 0);
      if n.None? then None
      else
        var m: int := n.value;
        Some(if t[0] == '-' then -m else m)
  }

  /** Digits with single underscores between them; after is whether a digit came just before. */
  function ParseDigits(s: string, after: bool, acc: nat): (r: Option<nat>) {
    if s == "" then (if after then Some(acc) else None)
    else if s[0] == '_' && after && |s| > 1 && s[1] != '_' then ParseDigits(s[1..], false, acc)
    else if IsDigit(s[0]) then ParseDigits(s[1..], true, 10 * acc + (s[0] as int - '0' as int))
    else None
  }

  function NatText(n: nat): (s: string)
    ensures AllDigits(s)
  {
    var last := [('0' as int + n % 10) as char];
    if n < 10 then last else NatText(n / 10) + last
  }

  /** str(n) */
  function IntText(n: int): string {
    if n < 0 then "-" + NatText(-n) else NatText(n)
  }

  function Spaces(n: nat): (s: string)
    ensures |s| == n
    ensures forall i :: 0 <= i < n ==> s[i] == ' '
  {
    if n == 0 then "" else " " + Spaces(n - 1)
  }

  /** f"{s:<width}" */
  function Left(s: string, width: nat): string {
    if |s| < width then s + Spaces(width - |s|) else s
  }

  // Laws

  lemma {:induction false} UntilIs(s: string, stops: char -> bool, n: nat)
    requires n <= |s| && (forall i :: 0 <= i < n ==> !stops(s[i])) && (n < |s| ==> stops(s[n]))
    ensures Until(s, stops) == n
  {
    if n > 0 {
      UntilIs(s[1..], stops, n - 1);
    }
  }

  lemma {:induction false} LeftStripBlank(b: string, s: string)
    requires Blank(b)
    ensures LeftStrip(b + s) == LeftStrip(s)
  {
    if b == "" {
      assert b + s == s;
    } else {
      assert (b + s)[1..] == b[1..] + s;
      LeftStripBlank(b[1..], s);
    }
  }

  lemma {:induction false} SplitBlank(b: string, s: string)
    requires Blank(b)
    ensures Split(b + s) == Split(s)
  {
    LeftStripBlank(b, s);
  }

  /** A word followed by a space, or by nothing, is the first token. */
  lemma {:induction false} SplitWord(w: string, s: string)
    requires IsWord(w) && (s == "" || IsSpace(s[0]))
    ensures Split(w + s) == [w] + Split(s)
  {
    var t := w + s;
    assert LeftStrip(t) == t;
    UntilIs(t, IsSpace, |w|);
    assert t[..|w|] == w && t[|w|..] == s;
  }

  /** A line that ends in one break. */
  lemma {:induction false} LineThen(line: string, c: char, s: string)
    requires OneLine(line) && IsLineBreak(c) && !(c == '\r' && s != "" && s[0] == '\n')
    ensures SplitLines(line + [c] + s) == [line] + SplitLines(s)
  {
    var t := line + [c] + s;
    UntilIs(t, IsLineBreak, |line|);
    assert t[..|line|] == line && t[|line| + 1..] == s;
  }

  lemma {:induction false} LineThenCrLf(line: string, s: string)
    requires OneLine(line)
    ensures SplitLines(line + "\r\n" + s) == [line] + SplitLines(s)
  {
    var t := line + "\r\n" + s;
    UntilIs(t, IsLineBreak, |line|);
    assert t[|line|] == '\r' && t[|line| + 1] == '\n';
    assert t[..|line|] == line && t[|line| + 2..] == s;
  }

  lemma {:induction false} LastLine(line: string)
    requires OneLine(line) && line != ""
    ensures SplitLines(line) == [line]
  {
    UntilIs(line, IsLineBreak, |line|);
  }

  // Numbers read back

  lemma StripWord(w: string)
    requires IsWord(w)
    ensures Strip(w) == w
  {
  }

  lemma {:induction false} ParseDigitsJoins(s: string, d: char, after: bool, acc: nat)
    requires AllDigits(s) && IsDigit(d)
    ensures ParseDigits(s, after, acc).Some?
    ensures ParseDigits(s + [d], after, acc) == Some(10 * ParseDigits(s, after, acc).value + (d as int - '0' as int))
  {
    var next := 10 * acc + (s[0] as int - '0' as int);
    assert (s + [d])[1..] == s[1..] + [d];
    if |s| == 1 {
      assert s[1..] == "";
      assert s[1..] + [d] == [d];
      assert [d][1..] == "";
      assert ParseDigits(s, after, acc) == ParseDigits(s[1..], true, next) == Some(next);
      assert ParseDigits([d], true, next) == ParseDigits([d][1..], true, 10 * next + (d as int - '0' as int));
    } else {
      ParseDigitsJoins(s[1..], d, true, next);
    }
  }

  lemma {:induction false} NatTextReads(n: nat)
    ensures ParseDigits(NatText(n), false, 0) == Some(n)
  {
    var d := ('0' as int + n % 10) as char;
    if n < 10 {
      assert NatText(n) == [d];
      assert [d][1..] == "";
    } else {
      NatTextReads(n / 10);
      ParseDigitsJoins(NatText(n / 10), d, false, 0);
    }
  }

  lemma DigitsAreWord(s: string)
    requires AllDigits(s)
    ensures IsWord(s)
  {
  }

  lemma IntTextWord(n: int)
    ensures IsWord(IntText(n))
  {
    DigitsAreWord(NatText(if n < 0 then -n else n));
  }

  /** What int reads of what str printed. */
  lemma IntTextReads(n: int)
    requires |IntText(n)| <= MAX_STR_DIGITS
    ensures ParseInt(IntText(n)) == Some(n)
  {
    var s := IntText(n);
    var digits := NatText(if n < 0 then -n else n);
    IntTextWord(n);
    assert n < 0 ==> s[1..] == digits;
    StripWord(s);
    NatTextReads(if n < 0 then -n else n);
  }

  // The largest numbers

  /** 2 ** 1024 - 2 ** 970: the smallest whole number that no float is near enough to. */
  const FLOAT_LIMIT: int := 0xFFFFFFFFFFFFFC00000000000000000000000000000000000000000000000000000000000000000000000000000000000000000000000000000000000000000000000000000000000000000000000000000000000000000000000000000000000000000000000000000000000000000000000000000000000000000000000000

  /** Converting n to a float raises OverflowError. */
  predicate BeyondFloat(n: int) {
    n >= FLOAT_LIMIT || n <= -FLOAT_LIMIT
  }

  function PowerOfTen(w: nat): nat {
    if w == 0 then 1 else 10 * PowerOfTen(w - 1)
  }

  lemma {:induction false} NatTextBound(n: nat, w: nat)
    requires |NatText(n)| <= w
    ensures n < PowerOfTen(w)
  {
    if n >= 10 {
      NatTextBound(n / 10, w - 1);
    } else {
      TenAtLeast(w);
    }
  }

  lemma {:induction false} TenAtLeast(w: nat)
    requires w >= 1
    ensures PowerOfTen(w) >= 10
  {
    if w > 1 {
      TenAtLeast(w - 1);
    }
  }

  lemma TenToThe16()
    ensures PowerOfTen(16) == 10_000_000_000_000_000 < FLOAT_LIMIT
  {
    assert PowerOfTen(2) == 100 && PowerOfTen(4) == 10_000;
    assert PowerOfTen(6) == 1_000_000 && PowerOfTen(8) == 100_000_000;
    assert PowerOfTen(10) == 10_000_000_000 && PowerOfTen(12) == 1_000_000_000_000;
    assert PowerOfTen(14) == 100_000_000_000_000;
  }

  /** A number printed in at most 16 characters is a float's. */
  lemma ShortIsFloat(n: int)
    requires |IntText(n)| <= 16
    ensures !BeyondFloat(n)
  {
    NatTextBound(if n < 0 then -n else n, 16);
    TenToThe16();
  }

  lemma {:induction false} NatTextShort(n: nat, w: nat)
    requires w >= 1 && n < PowerOfTen(w)
    ensures |NatText(n)| <= w
  {
    if n >= 10 {
      NatTextShort(n / 10, w - 1);
    }
  }

  lemma {:induction false} PowersJoin(v: nat, w: nat)
    ensures PowerOfTen(v + w) == PowerOfTen(v) * PowerOfTen(w)
  {
    if v > 0 {
      PowersJoin(v - 1, w);
      TenTimes(PowerOfTen(v - 1), PowerOfTen(w));
    }
  }

  lemma TenTimes(x: nat, y: nat)
    ensures 10 * x * y == 10 * (x * y)
  {
  }

  lemma {:induction false} FourPowers(v: nat, p: nat)
    requires p == PowerOfTen(v)
    ensures PowerOfTen(v + v + (v + v)) == p * p * (p * p)
  {
    PowersJoin(v, v);
    PowersJoin(v + v, v + v);
  }

  lemma TenToThe80() returns (p: nat)
    ensures p == PowerOfTen(80) && FLOAT_LIMIT < p * p * (p * p)
  {
    p := 100000000000000000000000000000000000000000000000000000000000000000000000000000000;
    TenToThe20();
    PowersJoin(20, 20);
    PowersJoin(40, 40);
  }

  lemma TenToThe20()
    ensures PowerOfTen(20) == 100000000000000000000
  {
    assert PowerOfTen(2) == 100 && PowerOfTen(4) == 10_000 && PowerOfTen(5) == 100_000;
    PowersJoin(5, 5);
    PowersJoin(10, 10);
  }

  lemma LimitPositive()
    ensures FLOAT_LIMIT > 0
  {
  }

  /** int reads the limit itself, and no float is near it. */
  lemma LimitIsRead()
    ensures BeyondFloat(FLOAT_LIMIT) && |IntText(FLOAT_LIMIT)| <= 320 <= MAX_STR_DIGITS
  {
    hide FLOAT_LIMIT, NatText, PowerOfTen;
    LimitPositive();
    var p := TenToThe80();
    var v: nat := 80;
    FourPowers(v, p);
    NatTextShort(FLOAT_LIMIT, v + v + (v + v));
  }
}
