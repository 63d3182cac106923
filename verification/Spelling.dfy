/** What the text operations accept, spelled out: blanks, line ends, letters and numerals. */
module Spelling {
  import opened Wrappers
  import opened Text
  import opened Table
  import opened KeyValue

  // Tokens and lines

  /** Tab to carriage return, the four separators, and the space. */
  lemma BlankIs(c: char)
    ensures IsSpace(c) <==> c as int in {9, 10, 11, 12, 13, 28, 29, 30, 31, 32}
  {
  }

  lemma BreakIs(c: char)
    ensures IsLineBreak(c) <==> c as int in {10, 11, 12, 13, 28, 29, 30}
  {
  }

  /** A character between two words parts them exactly when it is one of these. */
  lemma SplitIff(a: string, c: char, b: string)
    requires IsWord(a) && IsWord(b)
    ensures Split(a + [c] + b) == [a, b] <==> c as int in {9, 10, 11, 12, 13, 28, 29, 30, 31, 32}
  {
    BlankIs(c);
    SplitLast(b);
    if IsSpace(c) {
      assert a + [c] + b == a + ([c] + b);
      SplitWord(a, [c] + b);
      SplitBlank([c], b);
    } else {
      SplitLast(a + [c] + b);
    }
  }

  lemma SplitLast(w: string)
    requires IsWord(w)
    ensures Split(w) == [w]
  {
    assert w + "" == w;
    SplitWord(w, "");
    assert Split("") == [];
  }

  /** A character between two lines ends the first exactly when it is one of these. */
  lemma SplitLinesIff(a: string, c: char, b: string)
    requires OneLine(a) && OneLine(b) && b != ""
    ensures SplitLines(a + [c] + b) == [a, b] <==> c as int in {10, 11, 12, 13, 28, 29, 30}
  {
    BreakIs(c);
    LastLine(b);
    if IsLineBreak(c) {
      LineThen(a, c, b);
    } else {
      LastLine(a + [c] + b);
    }
  }

  /** A carriage return and a line feed are one end, in this order alone. */
  lemma LineEnds(a: string, b: string)
    requires OneLine(a) && OneLine(b) && b != ""
    ensures SplitLines(a + "\r\n" + b) == [a, b]
    ensures SplitLines(a + "\n\r" + b) == [a, "", b]
  {
    hide SplitLines, IsLineBreak;
    LineThenCrLf(a, b);
    LastLine(b);
    BreakIs('\n');
    BreakIs('\r');
    LineThen("", '\r', b);
    assert "" + ['\r'] + b == "\r" + b;
    LineThen(a, '\n', "\r" + b);
    assert a + "\n\r" + b == a + ['\n'] + ("\r" + b);
  }

  /** The last line needs no end. */
  lemma LastLineEnds(a: string)
    requires OneLine(a) && a != ""
    ensures SplitLines(a + "\n") == [a] == SplitLines(a)
  {
    LastLine(a);
    BreakIs('\n');
    LineThen(a, '\n', "");
    assert a + "\n" == a + ['\n'] + "";
    assert SplitLines("") == [];
  }

  /** Stripping takes blanks off both ends, all of them, and nothing else. */
  lemma StripIs(s: string) returns (before: string, after: string)
    ensures Blank(before) && Blank(after) && s == before + Strip(s) + after
    ensures Strip(s) != "" ==> !IsSpace(Strip(s)[0]) && !IsSpace(Strip(s)[|Strip(s)| - 1])
  {
    var t := LeftStrip(s);
    before := LeftStripIs(s);
    after := RightStripIs(t);
  }

  lemma {:induction false} LeftStripIs(s: string) returns (before: string)
    ensures Blank(before) && s == before + LeftStrip(s)
  {
    if s != "" && IsSpace(s[0]) {
      var more := LeftStripIs(s[1..]);
      before := [s[0]] + more;
    } else {
      before := "";
    }
  }

  lemma {:induction false} RightStripIs(s: string) returns (after: string)
    ensures Blank(after) && s == RightStrip(s) + after
    ensures RightStrip(s) != "" ==> !IsSpace(RightStrip(s)[|RightStrip(s)| - 1])
  {
    if s != "" && IsSpace(s[|s| - 1]) {
      var more := RightStripIs(s[..|s| - 1]);
      after := more + [s[|s| - 1]];
    } else {
      after := "";
    }
  }

  /** Two letters are the same but for case. */
  lemma SameLetter(c: char, d: char)
    requires c <= d
    ensures LowerChar(c) == LowerChar(d) <==> c == d || ('A' <= c <= 'Z' && d as int == c as int + 32)
  {
  }

  // Whole numbers

  /** Digits, with single underscores between them. */
  predicate Numeral(s: string, digit: char -> bool) {
    && s != "" && s[0] != '_' && s[|s| - 1] != '_'
    && (forall i :: 0 <= i < |s| ==> digit(s[i]) || s[i] == '_')
    && (forall i :: 0 <= i < |s| - 1 ==> s[i] != '_' || s[i + 1] != '_')
  }

  const TEN_DIGITS: char -> bool := (c: char) => '0' <= c <= '9'
  const SIXTEEN_DIGITS: char -> bool := (c: char) => '0' <= c <= '9' || 'a' <= c <= 'f' || 'A' <= c <= 'F'

  /** What the digits of s add to the number before them; underscores are passed over. */
  function Worth(before: nat, s: string): nat {
    if s == "" then before
    else
      var front, c := Worth(before, s[..|s| - 1]), s[|s| - 1];
      if '0' <= c <= '9' then 10 * front + (c as int - 48) else front
  }

  function HexWorth(before: nat, s: string): nat {
    if s == "" then before
    else
      var front, c := HexWorth(before, s[..|s| - 1]), s[|s| - 1];
      if '0' <= c <= '9' then 16 * front + (c as int - 48)
      else if 'a' <= c <= 'f' then 16 * front + (c as int - 87)
      else if 'A' <= c <= 'F' then 16 * front + (c as int - 55)
      else front
  }

  /** What may still follow: a numeral, with an underscore before it where digits came before, or nothing at all there. */
  predicate Rest(s: string, after: bool, digit: char -> bool) {
    if after then s == "" || (if s[0] == '_' then Numeral(s[1..], digit) else Numeral(s, digit)) else Numeral(s, digit)
  }

  lemma RestStep(s: string, after: bool, digit: char -> bool)
    requires s != "" && !digit('_')
    ensures Rest(s, after, digit) <==>
              if s[0] == '_' then after && Rest(s[1..], false, digit) else digit(s[0]) && Rest(s[1..], true, digit)
  {
    var t := s[1..];
    if s[0] != '_' && t != "" {
      assert t[|t| - 1] == s[|s| - 1];
      if Numeral(s, digit) {
        if t[0] == '_' {
          assert s[0 + 1] == '_';
          assert |t| > 1;
          forall i | 0 <= i < |t[1..]| ensures digit(t[1..][i]) || t[1..][i] == '_' { assert t[1..][i] == s[i + 2]; }
          forall i | 0 <= i < |t[1..]| - 1 ensures t[1..][i] != '_' || t[1..][i + 1] != '_' {
            assert t[1..][i] == s[i + 2] && t[1..][i + 1] == s[(i + 2) + 1];
          }
          assert s[1] == '_' && s[1 + 1] == t[1..][0];
        }
      } else if digit(s[0]) && Rest(t, true, digit) {
        forall i | 0 <= i < |s| ensures digit(s[i]) || s[i] == '_' {
          if i >= 1 { assert s[i] == t[i - 1]; if t[0] == '_' && i >= 2 { assert t[i - 1] == t[1..][i - 2]; } }
        }
        forall i | 0 <= i < |s| - 1 ensures s[i] != '_' || s[i + 1] != '_' {
          if i >= 1 {
            assert s[i] == t[i - 1] && s[i + 1] == t[(i - 1) + 1];
            if t[0] == '_' && i >= 2 { assert t[i - 1] == t[1..][i - 2] && t[i] == t[1..][(i - 2) + 1]; }
            if t[0] == '_' && i == 1 { assert t[1] == t[1..][0]; }
          }
        }
      }
    }
  }

  lemma {:induction false} WorthFirst(before: nat, s: string)
    requires s != ""
    ensures Worth(before, s) == Worth(Worth(before, [s[0]]), s[1..])
    ensures HexWorth(before, s) == HexWorth(HexWorth(before, [s[0]]), s[1..])
  {
    if |s| == 1 {
      assert [s[0]] == s;
    } else {
      var front := s[..|s| - 1];
      WorthFirst(before, front);
      assert front[1..] == s[1..][..|s[1..]| - 1];
    }
  }

  lemma WorthOfOne(before: nat, c: char)
    ensures Worth(before, [c]) == (if '0' <= c <= '9' then 10 * before + (c as int - 48) else before)
    ensures HexWorth(before, [c]) == if SIXTEEN_DIGITS(c) then 16 * before + HexDigitOf(c) else before
  {
    assert [c][..0] == "";
    assert Worth(before, "") == before && HexWorth(before, "") == before;
  }

  function HexDigitOf(c: char): nat
    requires SIXTEEN_DIGITS(c)
  {
    if c <= '9' then c as int - 48 else if c <= 'F' then c as int - 55 else c as int - 87
  }

  lemma {:induction false} ParseDigitsIff(s: string, after: bool, acc: nat)
    ensures ParseDigits(s, after, acc).Some? <==> Rest(s, after, TEN_DIGITS)
    ensures ParseDigits(s, after, acc).Some? ==> ParseDigits(s, after, acc).value == Worth(acc, s)
  {
    hide Rest, Numeral;
    if s == "" {
      NothingRests(after, TEN_DIGITS);
    } else {
      RestStep(s, after, TEN_DIGITS);
      WorthFirst(acc, s);
      WorthOfOne(acc, s[0]);
      if s[0] == '_' {
        UnderscoreRests(s[1..], TEN_DIGITS);
        ParseDigitsIff(s[1..], false, acc);
      } else if '0' <= s[0] <= '9' {
        ParseDigitsIff(s[1..], true, 10 * acc + (s[0] as int - 48));
      }
    }
  }

  lemma NothingRests(after: bool, digit: char -> bool)
    ensures Rest("", after, digit) <==> after
  {
  }

  lemma UnderscoreRests(s: string, digit: char -> bool)
    ensures Rest(s, false, digit) ==> s != "" && s[0] != '_'
  {
  }

  lemma {:induction false} ParseHexIff(s: string, after: bool, acc: nat)
    ensures ParseHex(s, after, acc).Some? <==> Rest(s, after, SIXTEEN_DIGITS)
    ensures ParseHex(s, after, acc).Some? ==> ParseHex(s, after, acc).value == HexWorth(acc, s)
  {
    hide Rest, Numeral;
    if s == "" {
      NothingRests(after, SIXTEEN_DIGITS);
    } else {
      RestStep(s, after, SIXTEEN_DIGITS);
      WorthFirst(acc, s);
      WorthOfOne(acc, s[0]);
      if s[0] == '_' {
        UnderscoreRests(s[1..], SIXTEEN_DIGITS);
        ParseHexIff(s[1..], false, acc);
      } else if SIXTEEN_DIGITS(s[0]) {
        assert HexDigit(s[0]) == HexDigitOf(s[0]);
        ParseHexIff(s[1..], true, 16 * acc + HexDigit(s[0]));
      }
    }
  }

  /** The text is this number to int: a numeral of at most 4300 digits, with or without a sign, between blanks. */
  predicate Denotes(s: string, n: int) {
    var t := Strip(s);
    && t != "" && DigitCount(t) <= 4300
    && if t[0] == '-' then Numeral(t[1..], TEN_DIGITS) && n + Worth(0, t[1..]) == 0
       else if t[0] == '+' then Numeral(t[1..], TEN_DIGITS) && n == Worth(0, t[1..])
       else Numeral(t, TEN_DIGITS) && n == Worth(0, t)
  }

  lemma ParseIntIff(s: string, n: int)
    ensures ParseInt(s) == Some(n) <==> Denotes(s, n)
  {
    hide Numeral;
    var t := Strip(s);
    if t != "" {
      ParseDigitsIff(if t[0] == '-' || t[0] == '+' then t[1..] else t, false, 0);
    }
  }

  lemma {:induction false} DigitsCounted(s: string, t: string)
    ensures DigitCount(s + t) == DigitCount(s) + DigitCount(t)
    ensures AllDigits(s) ==> DigitCount(s) == |s|
    ensures (forall i :: 0 <= i < |s| ==> !('0' <= s[i] <= '9')) ==> DigitCount(s) == 0
  {
    if s == "" {
      assert s + t == t;
    } else {
      DigitsCounted(s[1..], t);
      assert (s + t)[1..] == s[1..] + t;
      assert s == [s[0]] + s[1..];
      if AllDigits(s) && |s| > 1 { assert AllDigits(s[1..]); }
    }
  }

  /** What parse_number makes of a text: hexadecimal after "0x", otherwise what int does; never an error. */
  lemma NumberTextIff(s: string, n: int)
    ensures var t := Strip(s);
            var hex := |t| >= 2 && t[0] == '0' && (t[1] == 'x' || t[1] == 'X');
            NumberText(s) == Ok(Whole(n)) <==>
              if hex then |t| >= 3 && Rest(t[2..], true, SIXTEEN_DIGITS) && n == HexWorth(0, t[2..])
              else Denotes(t, n)
    ensures NumberText(s) == Ok(Absent) || exists m :: NumberText(s) == Ok(Whole(m))
  {
    hide Rest, Numeral, Strip;
    var t := Strip(s);
    ParseIntIff(t, n);
    if t == "-" { DashDenotesNone(n); }
    if t == "" { BlankDenotesNone(n); }
    if |t| > 2 { ParseHexIff(t[2..], true, 0); }
  }

  lemma DashDenotesNone(n: int)
    ensures !Denotes("-", n)
  {
  }

  lemma BlankDenotesNone(n: int)
    ensures !Denotes("", n)
  {
  }

  // The largest float

  function PowerOfTwo(n: nat): (p: nat)
    ensures p >= 1
  {
    if n == 0 then 1 else 2 * PowerOfTwo(n - 1)
  }

  lemma {:induction false} TwosJoin(m: nat, n: nat)
    ensures PowerOfTwo(m + n) == PowerOfTwo(m) * PowerOfTwo(n)
  {
    if m > 0 {
      TwosJoin(m - 1, n);
      TwoTimes(PowerOfTwo(m - 1), PowerOfTwo(n));
    }
  }

  lemma TwoTimes(x: nat, y: nat)
    ensures 2 * x * y == 2 * (x * y)
  {
  }

  lemma Joined(m: nat, p: nat, n: nat, q: nat)
    requires PowerOfTwo(m) == p && PowerOfTwo(n) == q
    ensures PowerOfTwo(m + n) == p * q
  {
    TwosJoin(m, n);
  }

  lemma TwoToThe64()
    ensures PowerOfTwo(8) == 256 && PowerOfTwo(10) == 1024 && PowerOfTwo(64) == 0x10000000000000000
  {
    assert PowerOfTwo(2) == 4 && PowerOfTwo(4) == 16 && PowerOfTwo(6) == 64;
    Joined(8, 256, 8, 256);
    Joined(16, 0x10000, 16, 0x10000);
    Joined(32, 0x100000000, 32, 0x100000000);
  }

  lemma TwoToThe512()
    ensures PowerOfTwo(128) == 0x100000000000000000000000000000000
    ensures PowerOfTwo(256) == 0x10000000000000000000000000000000000000000000000000000000000000000
    ensures PowerOfTwo(512)
         == 0x100000000000000000000000000000000000000000000000000000000000000000000000000000000000000000000000000000000000000000000000000000000
  {
    TwoToThe64();
    Joined(64, 0x10000000000000000, 64, 0x10000000000000000);
    Joined(128, 0x100000000000000000000000000000000, 128, 0x100000000000000000000000000000000);
    Joined(256, PowerOfTwo(256), 256, PowerOfTwo(256));
  }

  /** The smallest number no float is near is half a step beyond the largest float. */
  lemma FloatLimitIs()
    ensures FLOAT_LIMIT == PowerOfTwo(1024) - PowerOfTwo(970)
  {
    TwoToThe64();
    TwoToThe512();
    Joined(512, PowerOfTwo(512), 512, PowerOfTwo(512));
    Joined(64, PowerOfTwo(64), 10, 1024);
    Joined(128, PowerOfTwo(128), 74, PowerOfTwo(74));
    Joined(256, PowerOfTwo(256), 202, PowerOfTwo(202));
    Joined(512, PowerOfTwo(512), 458, PowerOfTwo(458));
  }
}
