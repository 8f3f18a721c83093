/** The small part of JavaScript's string library the inventory code relies on:
    trimming, ASCII lower-casing, substring search, removal of the first
    occurrence of a character, and decimal `parseInt`. */
module Text {
  import opened Wrappers

  /** The white space this model trims and `parseInt` skips: the ASCII
      white-space characters, the no-break space, the line and paragraph
      separators and the byte-order mark. JavaScript's `trim` also removes the
      other Unicode "Zs" spaces (U+1680, U+2000 to U+200A, U+202F, U+205F,
      U+3000), which this predicate leaves out. */
  predicate IsSpace(c: char) {
    c == ' ' || c == '\t' || c == '\n' || c == '\r' || c == '\U{0B}' || c == '\U{0C}'
    || c == '\U{A0}' || c == '\U{2028}' || c == '\U{2029}' || c == '\U{FEFF}'
  }

  /** Drops leading white space. */
  function TrimStart(s: string): (r: string)
    ensures |r| <= |s|
    ensures r == [] || !IsSpace(r[0])
  {
    if s != [] && IsSpace(s[0]) then TrimStart(s[1..]) else s
  }

  /** What `TrimStart` keeps is a suffix of its input, and all it drops is white space. */
  lemma {:induction false} TrimStartSuffix(s: string)
    ensures TrimStart(s) == s[|s| - |TrimStart(s)|..]
    ensures forall i :: 0 <= i < |s| - |TrimStart(s)| ==> IsSpace(s[i])
  {
    if s != [] && IsSpace(s[0]) {
      TrimStartSuffix(s[1..]);
      var r := TrimStart(s[1..]);
      assert s[1..][|s| - 1 - |r|..] == s[|s| - |r|..];
      forall i | 0 <= i < |s| - |r| ensures IsSpace(s[i]) {
        if i > 0 { assert s[i] == s[1..][i - 1]; }
      }
    }
  }

  /** Drops trailing white space. */
  function TrimEnd(s: string): (r: string)
    ensures |r| <= |s| && r == s[..|r|]
    ensures r == [] || !IsSpace(r[|r| - 1])
  {
    if s != [] && IsSpace(s[|s| - 1]) then TrimEnd(s[..|s| - 1]) else s
  }

  /** All `TrimEnd` drops is white space. */
  lemma {:induction false} TrimEndSuffix(s: string)
    ensures forall i :: |TrimEnd(s)| <= i < |s| ==> IsSpace(s[i])
  {
    if s != [] && IsSpace(s[|s| - 1]) {
      TrimEndSuffix(s[..|s| - 1]);
      forall i | |TrimEnd(s)| <= i < |s| ensures IsSpace(s[i]) {
        if i < |s| - 1 { assert s[i] == s[..|s| - 1][i]; }
      }
    }
  }

  /** `String.prototype.trim`: white space removed at both ends. */
  function Trim(s: string): (r: string)
    ensures |r| <= |s|
    ensures r == [] || (!IsSpace(r[0]) && !IsSpace(r[|r| - 1]))
    ensures s == [] || IsSpace(s[0]) || (r != [] && r[0] == s[0])
  {
    TrimEndSuffix(TrimStart(s));
    TrimEnd(TrimStart(s))
  }

  /** Lower-cases an ASCII capital letter and leaves every other character alone. */
  function LowerChar(c: char): (d: char)
    ensures 'A' <= c <= 'Z' ==> 'a' <= d <= 'z' && d as int == c as int + 32
    ensures !('A' <= c <= 'Z') ==> d == c
  {
    if 'A' <= c <= 'Z' then (c as int + 32) as char else c
  }

  /** `toLowerCase`, restricted to ASCII letters. */
  function ToLower(s: string): (r: string)
    ensures |r| == |s|
    ensures forall i :: 0 <= i < |s| ==> r[i] == LowerChar(s[i])
  {
    if s == [] then [] else [LowerChar(s[0])] + ToLower(s[1..])
  }

  lemma ToLowerIdempotent(s: string)
    ensures ToLower(ToLower(s)) == ToLower(s)
  {
  }

  /** `s.includes(t)`: `t` occurs in `s` as a contiguous block. */
  predicate Contains(s: string, t: string) {
    exists i :: 0 <= i <= |s| - |t| && OccursAt(s, t, i)
  }

  predicate OccursAt(s: string, t: string, i: int)
    requires 0 <= i <= |s| - |t|
  {
    s[i..i + |t|] == t
  }

  /** `s.replace(c, '')` for a one-character pattern: removes the first occurrence of `c`. */
  function RemoveFirst(s: string, c: char): (r: string)
    ensures c !in s ==> r == s
    ensures c in s ==> |r| == |s| - 1
  {
    if s == [] then []
    else if s[0] == c then s[1..]
    else [s[0]] + RemoveFirst(s[1..], c)
  }

  lemma {:induction false} RemoveFirstSplit(a: string, c: char, b: string)
    requires c !in a
    ensures RemoveFirst(a + [c] + b, c) == a + b
  {
    var s := a + [c] + b;
    if a == [] {
      assert s == [c] + b && s[1..] == b;
    } else {
      assert s[0] == a[0] && s[0] != c;
      assert s[1..] == a[1..] + [c] + b;
      assert c !in a[1..] by { assert forall x :: x in a[1..] ==> x in a; }
      RemoveFirstSplit(a[1..], c, b);
      HeadSplit(a, b);
    }
  }

  lemma HeadSplit(a: string, b: string)
    requires a != []
    ensures a + b == [a[0]] + (a[1..] + b)
  {
    assert a == [a[0]] + a[1..];
  }

  predicate IsDigit(c: char) {
    '0' <= c <= '9'
  }

  function DigitValue(c: char): (n: nat)
    requires IsDigit(c)
    ensures n < 10
  {
    c as int - '0' as int
  }

  function Pow10(k: nat): (p: nat)
    ensures p >= 1
  {
    if k == 0 then 1 else 10 * Pow10(k - 1)
  }

  predicate AllDigits(s: string) {
    forall i :: 0 <= i < |s| ==> IsDigit(s[i])
  }

  /** The value of a decimal numeral, read most significant digit first. */
  function Value(d: string): nat
    requires AllDigits(d)
  {
    if d == [] then 0 else 10 * Value(d[..|d| - 1]) + DigitValue(d[|d| - 1])
  }

  lemma Regroup(va: int, vb: int, p: int, last: int)
    ensures 10 * (va * p + vb) + last == va * (10 * p) + (10 * vb + last)
  {
  }

  lemma {:induction false} ValueAppend(a: string, b: string)
    requires AllDigits(a) && AllDigits(b)
    ensures AllDigits(a + b)
    ensures Value(a + b) == Value(a) * Pow10(|b|) + Value(b)
  {
    var ab := a + b;
    assert AllDigits(ab) by {
      forall i | 0 <= i < |ab| ensures IsDigit(ab[i]) {
        if i < |a| { assert ab[i] == a[i]; } else { assert ab[i] == b[i - |a|]; }
      }
    }
    if b == [] {
      assert ab == a;
    } else {
      var b' := b[..|b| - 1];
      assert AllDigits(b') by {
        forall i | 0 <= i < |b'| ensures IsDigit(b'[i]) { assert b'[i] == b[i]; }
      }
      var last := DigitValue(b[|b| - 1]);
      assert ab[..|ab| - 1] == a + b';
      ValueAppend(a, b');
      var va, vb, p := Value(a), Value(b'), Pow10(|b'|);
      assert Value(ab) == 10 * Value(a + b') + last;
      assert Value(b) == 10 * vb + last;
      Regroup(va, vb, p, last);
    }
  }

  /** The leading run of decimal digits. */
  function NumeralPrefix(u: string): (d: string)
    ensures AllDigits(d) && |d| <= |u| && d == u[..|d|]
    ensures |d| == |u| || !IsDigit(u[|d|])
  {
    if u != [] && IsDigit(u[0]) then [u[0]] + NumeralPrefix(u[1..]) else []
  }

  lemma {:induction false} NumeralPrefixWhole(d: string)
    requires AllDigits(d)
    ensures NumeralPrefix(d) == d
  {
    if d != [] {
      assert AllDigits(d[1..]) by {
        forall i | 0 <= i < |d| - 1 ensures IsDigit(d[1..][i]) { assert d[1..][i] == d[i + 1]; }
      }
      NumeralPrefixWhole(d[1..]);
      assert d == [d[0]] + d[1..];
    }
  }

  /** `parseInt(s)` in base 10: leading white space is skipped, one sign is
      accepted, and the leading run of digits is read; `None` stands for NaN. */
  function ParseInt(s: string): (r: Option<int>)
    ensures r.None? <==> NumeralPrefix(Unsigned(TrimStart(s))) == []
  {
    var t := TrimStart(s);
    var d := NumeralPrefix(Unsigned(t));
    if d == [] then None
    else if t[0] == '-' then Some(-(Value(d) as int))
    else Some(Value(d))
  }

  /** What follows an optional leading sign. */
  function Unsigned(t: string): (u: string)
    ensures u == t || (|t| > 0 && (t[0] == '-' || t[0] == '+') && u == t[1..])
  {
    if t != [] && (t[0] == '-' || t[0] == '+') then t[1..] else t
  }

  /** A non-empty numeral parses to its value. */
  lemma ParseNumeral(d: string, v: int)
    requires d != [] && AllDigits(d) && v == Value(d)
    ensures ParseInt(d) == Some(v)
  {
    assert TrimStart(d) == d by { assert IsDigit(d[0]); }
    assert Unsigned(d) == d by { assert IsDigit(d[0]); }
    assert NumeralPrefix(d) == d by { NumeralPrefixWhole(d); }
  }

  /** An "HH:MM" clock string with the colon removed reads as the number HH*100+MM. */
  lemma ClockReading(clock: string)
    requires |clock| == 5 && clock[2] == ':'
    requires AllDigits(clock[..2]) && AllDigits(clock[3..])
    ensures ParseInt(RemoveFirst(clock, ':')) == Some(100 * Value(clock[..2]) + Value(clock[3..]))
  {
    var hh, mm := clock[..2], clock[3..];
    ClockSplit(clock);
    ParseClockDigits(hh, mm);
    SameParse(RemoveFirst(clock, ':'), hh + mm, 100 * Value(hh) + Value(mm));
  }

  lemma SameParse(s: string, t: string, v: int)
    requires s == t && ParseInt(t) == Some(v)
    ensures ParseInt(s) == Some(v)
  {
  }

  lemma ClockSplit(clock: string)
    requires |clock| == 5 && clock[2] == ':' && AllDigits(clock[..2])
    ensures RemoveFirst(clock, ':') == clock[..2] + clock[3..]
  {
    assert clock[..2][0] == clock[0] && clock[..2][1] == clock[1];
    ClockDigits(clock);
  }

  lemma ParseClockDigits(hh: string, mm: string)
    requires |hh| == 2 && |mm| == 2 && AllDigits(hh) && AllDigits(mm)
    ensures ParseInt(hh + mm) == Some(100 * Value(hh) + Value(mm))
  {
    ClockValue(hh, mm);
    ParseNumeral(hh + mm, 100 * Value(hh) + Value(mm));
  }

  lemma ClockDigits(clock: string)
    requires |clock| == 5 && clock[2] == ':' && IsDigit(clock[0]) && IsDigit(clock[1])
    ensures RemoveFirst(clock, ':') == clock[..2] + clock[3..]
  {
    assert clock == clock[..2] + [':'] + clock[3..];
    RemoveFirstSplit(clock[..2], ':', clock[3..]);
  }

  lemma ClockValue(hh: string, mm: string)
    requires |mm| == 2 && AllDigits(hh) && AllDigits(mm)
    ensures AllDigits(hh + mm) && Value(hh + mm) == 100 * Value(hh) + Value(mm)
  {
    ValueAppend(hh, mm);
    assert Pow10(|mm|) == 100;
  }

  function DigitChar(d: nat): (c: char)
    requires d < 10
    ensures IsDigit(c) && DigitValue(c) == d
  {
    ('0' as int + d) as char
  }

  /** A number's decimal numeral, as `${n}` writes it. */
  function NatToString(n: nat): (r: string)
    ensures r != [] && AllDigits(r) && Value(r) == n
    decreases n
  {
    if n < 10 then [DigitChar(n)]
    else
      var init := NatToString(n / 10);
      var r := init + [DigitChar(n % 10)];
      assert r[..|r| - 1] == init;
      assert AllDigits(r) by {
        forall i | 0 <= i < |r| ensures IsDigit(r[i]) { if i < |init| { assert r[i] == init[i]; } }
      }
      r
  }

  function IntToString(i: int): (r: string)
    ensures r != []
  {
    if i < 0 then "-" + NatToString(-i) else NatToString(i)
  }

  /** Writing a number out and reading it back with `parseInt` gives the number. */
  lemma IntToStringParses(i: int)
    ensures ParseInt(IntToString(i)) == Some(i)
  {
    if i < 0 {
      ParseNegative(NatToString(-i), -i);
    } else {
      ParseNumeral(NatToString(i), i);
    }
  }

  /** A minus sign followed by a non-empty numeral parses to the negated value. */
  lemma ParseNegative(d: string, v: nat)
    requires d != [] && AllDigits(d) && v == Value(d)
    ensures ParseInt("-" + d) == Some(-(v as int))
  {
    var s := "-" + d;
    MinusSign(d);
    NumeralPrefixWhole(d);
    ParseMinus(s, d);
  }

  lemma MinusSign(d: string)
    ensures TrimStart("-" + d) == "-" + d && Unsigned("-" + d) == d
  {
    var s := "-" + d;
    assert s[0] == '-' && s[1..] == d;
  }

  lemma ParseMinus(s: string, d: string)
    requires s == "-" + d && TrimStart(s) == s && Unsigned(s) == d
    requires d != [] && AllDigits(d) && NumeralPrefix(d) == d
    ensures ParseInt(s) == Some(-(Value(d) as int))
  {
    assert s[0] == '-';
  }
}
