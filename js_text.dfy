/**
 * The JavaScript string and number primitives that the dashboard and the slices rely on:
 * `toLowerCase` (ASCII letters only), `includes`, `slice`/`substring` from 0, the decimal
 * rendering of an integer (`toString`, template literals, `Array.prototype.join`),
 * `parseInt` without a radix, `join` and `split` on a one-character separator.
 */
module JsText {
  import opened Wrappers

  // ---------------------------------------------------------------- case folding

  function LowerChar(c: char): char {
    if 'A' <= c <= 'Z' then (c as int + 32) as char else c
  }

  /** `s.toLowerCase()` on the ASCII range; every other character is kept. */
  function ToLower(s: string): (r: string)
    ensures |r| == |s|
    ensures forall i :: 0 <= i < |s| ==> r[i] == LowerChar(s[i])
  {
    seq(|s|, i requires 0 <= i < |s| => LowerChar(s[i]))
  }

  // ---------------------------------------------------------------- searching

  predicate IsPrefix(p: string, s: string) {
    |p| <= |s| && s[..|p|] == p
  }

  /** `s.includes(sub)`: `sub` occurs at some position of `s`. */
  predicate Includes(s: string, sub: string)
    decreases |s|
  {
    IsPrefix(sub, s) || (|s| > 0 && Includes(s[1..], sub))
  }

  /** `s.slice(0, n)` / `s.substring(0, n)` for `n >= 0`: at most the first `n` characters. */
  function Take(s: string, n: nat): (r: string)
    ensures |r| == if |s| <= n then |s| else n
    ensures IsPrefix(r, s)
  {
    if |s| <= n then s else s[..n]
  }

  /** Lowering both sides keeps every exact occurrence: a case-insensitive search finds it. */
  lemma {:induction false} ToLowerKeepsIncludes(s: string, sub: string)
    requires Includes(s, sub)
    ensures Includes(ToLower(s), ToLower(sub))
    decreases |s|
  {
    if IsPrefix(sub, s) {
      assert ToLower(s)[..|sub|] == ToLower(sub);
    } else {
      ToLowerKeepsIncludes(s[1..], sub);
      assert ToLower(s)[1..] == ToLower(s[1..]);
    }
  }

  // ---------------------------------------------------------------- integers as text

  predicate IsDigit(c: char) { '0' <= c <= '9' }

  predicate AllDigits(s: string) {
    forall i :: 0 <= i < |s| ==> IsDigit(s[i])
  }

  function DigitChar(d: nat): (c: char)
    requires d < 10
    ensures IsDigit(c) && c as int - '0' as int == d
  {
    ('0' as int + d) as char
  }

  function DigitValue(c: char): nat
    requires IsDigit(c)
  {
    c as int - '0' as int
  }

  /** The decimal value of a digit string (read from the left, the last digit least significant). */
  function DigitsValue(s: string): nat
    requires AllDigits(s)
  {
    if s == [] then 0 else DigitsValue(s[..|s| - 1]) * 10 + DigitValue(s[|s| - 1])
  }

  /** Decimal rendering of a non-negative integer: no sign, no leading zero. */
  function NatToString(n: nat): (r: string)
    ensures |r| > 0 && AllDigits(r)
    ensures r[0] == '0' ==> n == 0 && r == "0"
  {
    if n < 10 then [DigitChar(n)] else NatToString(n / 10) + [DigitChar(n % 10)]
  }

  /** `String(n)` for an integer `n`: a minus sign for negatives, then the decimal digits. */
  function IntToString(n: int): (r: string)
    ensures |r| > 0
  {
    if n < 0 then "-" + NatToString(-n) else NatToString(n)
  }

  lemma {:induction false} DigitsValueOfNatToString(n: nat)
    ensures DigitsValue(NatToString(n)) == n
  {
    var s := NatToString(n);
    if n >= 10 {
      DigitsValueOfNatToString(n / 10);
      assert s[..|s| - 1] == NatToString(n / 10);
    }
  }

  lemma IntToStringShape(n: int)
    ensures n < 0 ==> IntToString(n)[0] == '-' && AllDigits(IntToString(n)[1..])
    ensures n >= 0 ==> AllDigits(IntToString(n))
    ensures n < 0 ==> IntToString(n)[1..] == NatToString(-n)
  {
    if n < 0 {
      assert IntToString(n)[1..] == NatToString(-n);
    }
  }

  /** No character of a rendered integer is a separator or a quote. */
  lemma IntToStringSafe(n: int, i: int)
    requires 0 <= i < |IntToString(n)|
    ensures IntToString(n)[i] == '-' || IsDigit(IntToString(n)[i])
  {
    IntToStringShape(n);
    if n < 0 && i > 0 {
      assert IntToString(n)[i] == IntToString(n)[1..][i - 1];
    }
  }

  // ---------------------------------------------------------------- parseInt

  /**
   * The white-space characters `parseInt` skips: tab, vertical tab, form feed, the byte-order
   * mark, every space separator (category Zs) and the four line terminators.
   */
  predicate IsJsWhiteSpace(c: char) {
    c == '\t' || c == '\U{B}' || c == '\U{C}' || c == '\U{FEFF}'
    || c == ' ' || c == '\U{A0}' || c == '\U{1680}' || '\U{2000}' <= c <= '\U{200A}'
    || c == '\U{202F}' || c == '\U{205F}' || c == '\U{3000}'
    || c == '\n' || c == '\r' || c == '\U{2028}' || c == '\U{2029}'
  }

  /** The text after the leading white space: exactly the white-space prefix is dropped. */
  function TrimStart(s: string): (r: string)
    ensures |r| <= |s| && r == s[|s| - |r|..]
    ensures forall i :: 0 <= i < |s| - |r| ==> IsJsWhiteSpace(s[i])
    ensures r == [] || !IsJsWhiteSpace(r[0])
    decreases |s|
  {
    if |s| > 0 && IsJsWhiteSpace(s[0]) then TrimStart(s[1..]) else s
  }

  predicate IsHexDigit(c: char) {
    IsDigit(c) || 'a' <= c <= 'f' || 'A' <= c <= 'F'
  }

  function HexDigitValue(c: char): nat
    requires IsHexDigit(c)
  {
    if IsDigit(c) then DigitValue(c)
    else if 'a' <= c <= 'f' then c as int - 'a' as int + 10
    else c as int - 'A' as int + 10
  }

  predicate AllHexDigits(s: string) {
    forall i :: 0 <= i < |s| ==> IsHexDigit(s[i])
  }

  function HexValue(s: string): nat
    requires AllHexDigits(s)
  {
    if s == [] then 0 else HexValue(s[..|s| - 1]) * 16 + HexDigitValue(s[|s| - 1])
  }

  /** Length of the longest prefix of `s` made of decimal digits. */
  function DecimalRun(s: string): (n: nat)
    ensures n <= |s| && AllDigits(s[..n])
    ensures n < |s| ==> !IsDigit(s[n])
    decreases |s|
  {
    if |s| > 0 && IsDigit(s[0]) then
      var n := DecimalRun(s[1..]) + 1;
      assert s[..n] == [s[0]] + s[1..][..n - 1];
      n
    else 0
  }

  /** Length of the longest prefix of `s` made of hexadecimal digits. */
  function HexRun(s: string): (n: nat)
    ensures n <= |s| && AllHexDigits(s[..n])
    ensures n < |s| ==> !IsHexDigit(s[n])
    decreases |s|
  {
    if |s| > 0 && IsHexDigit(s[0]) then
      var n := HexRun(s[1..]) + 1;
      assert s[..n] == [s[0]] + s[1..][..n - 1];
      n
    else 0
  }

  /**
   * The magnitude after the sign: a `0x`/`0X` prefix selects radix 16, otherwise radix 10;
   * the longest run of digits is read and the rest ignored; no digit at all is NaN (None).
   */
  function ParseMagnitude(s: string): Option<nat> {
    if |s| >= 2 && s[0] == '0' && (s[1] == 'x' || s[1] == 'X') then
      var body := s[2..];
      var n := HexRun(body);
      if n == 0 then None else Some(HexValue(body[..n]))
    else
      var n := DecimalRun(s);
      if n == 0 then None else Some(DigitsValue(s[..n]))
  }

  /** `parseInt(s)` with no radix: None stands for NaN. */
  function ParseInt(s: string): Option<int> {
    ParseSigned(TrimStart(s))
  }

  /** An optional sign, then the magnitude. */
  function ParseSigned(t: string): Option<int> {
    if |t| > 0 && t[0] == '-' then
      match ParseMagnitude(t[1..])
      case Some(m) => var v: int := m; Some(-v)
      case None => None
    else if |t| > 0 && t[0] == '+' then
      match ParseMagnitude(t[1..])
      case Some(m) => Some(m)
      case None => None
    else
      match ParseMagnitude(t)
      case Some(m) => Some(m)
      case None => None
  }

  lemma {:induction false} DecimalRunOfDigits(s: string)
    requires AllDigits(s)
    ensures DecimalRun(s) == |s|
    decreases |s|
  {
    if |s| > 0 {
      DecimalRunOfDigits(s[1..]);
    }
  }

  lemma ParseMagnitudeOfNatToString(m: nat)
    ensures ParseMagnitude(NatToString(m)) == Some(m)
  {
    var digits := NatToString(m);
    DecimalRunOfDigits(digits);
    DigitsValueOfNatToString(m);
    assert digits[..|digits|] == digits;
  }

  /** `parseInt` reads back every integer that `String(n)` renders. */
  lemma ParseIntOfIntToString(n: int)
    ensures ParseInt(IntToString(n)) == Some(n)
  {
    var s := IntToString(n);
    assert !IsJsWhiteSpace(s[0]) by { IntToStringSafe(n, 0); }
    assert TrimStart(s) == s;
    if n < 0 {
      assert s[1..] == NatToString(-n);
      ParseMagnitudeOfNatToString(-n);
    } else {
      ParseMagnitudeOfNatToString(n);
      assert s[0] != '-' && s[0] != '+' by { IntToStringSafe(n, 0); }
    }
  }

  lemma {:induction false} TrimStartSkips(ws: string, s: string)
    requires forall i :: 0 <= i < |ws| ==> IsJsWhiteSpace(ws[i])
    ensures TrimStart(ws + s) == TrimStart(s)
    decreases |ws|
  {
    if ws != [] {
      assert (ws + s)[0] == ws[0];
      assert (ws + s)[1..] == ws[1..] + s;
      TrimStartSkips(ws[1..], s);
    } else {
      assert ws + s == s;
    }
  }

  /** Leading white space is skipped: with or without it, `parseInt` gives the same value. */
  lemma ParseIntSkipsSpace(ws: string, s: string)
    requires forall i :: 0 <= i < |ws| ==> IsJsWhiteSpace(ws[i])
    ensures ParseInt(ws + s) == ParseInt(s)
  {
    TrimStartSkips(ws, s);
    assert ParseInt(ws + s) == ParseSigned(TrimStart(ws + s));
  }

  /** A digit string followed by a non-digit: the run stops exactly at the end of the digits. */
  lemma {:induction false} DecimalRunStops(d: string, rest: string)
    requires AllDigits(d)
    requires rest == [] || !IsDigit(rest[0])
    ensures DecimalRun(d + rest) == |d|
    decreases |d|
  {
    if d != [] {
      assert (d + rest)[1..] == d[1..] + rest;
      DecimalRunStops(d[1..], rest);
    } else {
      assert d + rest == rest;
    }
  }

  lemma ParseMagnitudeStops(m: nat, rest: string)
    requires rest == [] || !IsDigit(rest[0])
    requires m != 0 || rest == [] || (rest[0] != 'x' && rest[0] != 'X')
    ensures ParseMagnitude(NatToString(m) + rest) == Some(m)
  {
    var digits := NatToString(m);
    var s := digits + rest;
    if |s| >= 2 && s[0] == '0' {
      assert digits == "0";
      assert s[1] == rest[0];
    }
    DecimalRunStops(digits, rest);
    assert s[..|digits|] == digits;
    DigitsValueOfNatToString(m);
  }

  /**
   * `parseInt` reads the leading integer and ignores the text after it ("25px" is 25), as long
   * as that text does not continue the number (another digit, or an `x` turning "0" into a hex prefix).
   */
  lemma ParseIntIgnoresTail(n: int, rest: string)
    requires rest == [] || !IsDigit(rest[0])
    requires n != 0 || rest == [] || (rest[0] != 'x' && rest[0] != 'X')
    ensures ParseInt(IntToString(n) + rest) == Some(n)
  {
    var r := IntToString(n);
    var s := r + rest;
    assert s[0] == r[0];
    assert !IsJsWhiteSpace(s[0]) by { IntToStringSafe(n, 0); }
    assert TrimStart(s) == s;
    if n < 0 {
      IntToStringShape(n);
      assert s[1..] == NatToString(-n) + rest;
      ParseMagnitudeStops(-n, rest);
    } else {
      assert s[0] != '-' && s[0] != '+' by { IntToStringSafe(n, 0); }
      ParseMagnitudeStops(n, rest);
    }
  }

  // ---------------------------------------------------------------- join and split

  /** `parts.join(sep)`: the parts with `sep` between neighbours and nowhere else. */
  function Join(parts: seq<string>, sep: string): string {
    if |parts| == 0 then ""
    else if |parts| == 1 then parts[0]
    else parts[0] + sep + Join(parts[1..], sep)
  }

  /** Appending a part to a joined list adds the separator and the part at the end. */
  lemma {:induction false} JoinSnoc(parts: seq<string>, t: string, sep: string)
    ensures Join(parts + [t], sep) == if parts == [] then t else Join(parts, sep) + sep + t
    decreases |parts|
  {
    if |parts| == 1 {
      assert (parts + [t])[1..] == [t];
    } else if |parts| > 1 {
      JoinSnoc(parts[1..], t, sep);
      assert (parts + [t])[1..] == parts[1..] + [t];
    }
  }

  lemma JoinTwo(a: string, b: string, sep: string)
    ensures Join([a, b], sep) == a + sep + b
  {
    assert [a, b][1..] == [b];
  }

  lemma JoinThree(a: string, b: string, c: string, sep: string)
    ensures Join([a, b, c], sep) == a + sep + b + sep + c
  {
    assert [a, b, c][1..] == [b, c];
    JoinTwo(b, c, sep);
  }

  /** `c` occurs nowhere in `s`. */
  predicate Lacks(s: string, c: char) {
    forall i :: 0 <= i < |s| ==> s[i] != c
  }

  lemma LacksConcat(a: string, b: string, c: char)
    requires Lacks(a, c) && Lacks(b, c)
    ensures Lacks(a + b, c)
  {
    forall i | 0 <= i < |a + b| ensures (a + b)[i] != c {
      if i >= |a| {
        assert (a + b)[i] == b[i - |a|];
      }
    }
  }

  /** No piece of `parts` holds `c`. */
  predicate AllLack(parts: seq<string>, c: char) {
    forall k, i :: 0 <= k < |parts| && 0 <= i < |parts[k]| ==> parts[k][i] != c
  }

  lemma AllLackAppend(a: seq<string>, b: seq<string>, c: char)
    requires AllLack(a, c) && AllLack(b, c)
    ensures AllLack(a + b, c)
  {
    forall k, i | 0 <= k < |a + b| && 0 <= i < |(a + b)[k]| ensures (a + b)[k][i] != c {
      if k >= |a| {
        assert (a + b)[k] == b[k - |a|];
      }
    }
  }

  /** A rendered integer holds no character other than a minus sign and digits. */
  lemma IntToStringLacks(n: int, c: char)
    requires c != '-' && !IsDigit(c)
    ensures Lacks(IntToString(n), c)
  {
    forall i | 0 <= i < |IntToString(n)| ensures IntToString(n)[i] != c {
      IntToStringSafe(n, i);
    }
  }

  /** Number of occurrences of `c` in `s`. */
  function Occurrences(s: string, c: char): nat {
    if s == [] then 0 else (if s[0] == c then 1 else 0) + Occurrences(s[1..], c)
  }

  /** `s.split(sep)` for a one-character separator. */
  function Split(s: string, sep: char): (r: seq<string>)
    ensures |r| > 0
    decreases |s|
  {
    if s == [] then [""]
    else
      var rest := Split(s[1..], sep);
      if s[0] == sep then [""] + rest else [[s[0]] + rest[0]] + rest[1..]
  }

  lemma {:induction false} OccurrencesAppend(a: string, b: string, c: char)
    ensures Occurrences(a + b, c) == Occurrences(a, c) + Occurrences(b, c)
  {
    if a != [] {
      assert (a + b)[1..] == a[1..] + b;
      OccurrencesAppend(a[1..], b, c);
    } else {
      assert a + b == b;
    }
  }

  /** `split` yields one piece more than there are separators. */
  lemma {:induction false} SplitLength(s: string, sep: char)
    ensures |Split(s, sep)| == Occurrences(s, sep) + 1
    decreases |s|
  {
    if s != [] {
      SplitLength(s[1..], sep);
    }
  }

  /** The separators in a joined string are the joints plus those inside the parts. */
  lemma {:induction false} OccurrencesJoin(parts: seq<string>, sep: char)
    requires |parts| > 0
    ensures Occurrences(Join(parts, [sep]), sep) == |parts| - 1 + SumOccurrences(parts, sep)
  {
    if |parts| > 1 {
      OccurrencesJoin(parts[1..], sep);
      OccurrencesAppend(parts[0] + [sep], Join(parts[1..], [sep]), sep);
      OccurrencesAppend(parts[0], [sep], sep);
      assert Occurrences([sep], sep) == 1;
    }
  }

  function SumOccurrences(parts: seq<string>, c: char): nat {
    if parts == [] then 0 else Occurrences(parts[0], c) + SumOccurrences(parts[1..], c)
  }

  lemma {:induction false} NoOccurrences(s: string, c: char)
    requires forall i :: 0 <= i < |s| ==> s[i] != c
    ensures Occurrences(s, c) == 0
  {
    if s != [] {
      NoOccurrences(s[1..], c);
    }
  }

  lemma {:induction false} SplitAppendSep(a: string, b: string, sep: char)
    requires forall i :: 0 <= i < |a| ==> a[i] != sep
    ensures Split(a + [sep] + b, sep) == [a] + Split(b, sep)
    decreases |a|
  {
    if a == [] {
      assert a + [sep] + b == [sep] + b;
      assert ([sep] + b)[1..] == b;
    } else {
      var s := a + [sep] + b;
      assert s[1..] == a[1..] + [sep] + b;
      SplitAppendSep(a[1..], b, sep);
      assert [a[0]] + a[1..] == a;
    }
  }

  lemma {:induction false} SplitNoSep(a: string, sep: char)
    requires forall i :: 0 <= i < |a| ==> a[i] != sep
    ensures Split(a, sep) == [a]
    decreases |a|
  {
    if a != [] {
      SplitNoSep(a[1..], sep);
      assert [a[0]] + a[1..] == a;
    }
  }

  /** `split` undoes `join` when no part contains the separator. */
  lemma {:induction false} SplitJoin(parts: seq<string>, sep: char)
    requires |parts| > 0
    requires forall k, i :: 0 <= k < |parts| && 0 <= i < |parts[k]| ==> parts[k][i] != sep
    ensures Split(Join(parts, [sep]), sep) == parts
  {
    if |parts| == 1 {
      SplitNoSep(parts[0], sep);
    } else {
      assert forall k, i :: 0 <= k < |parts[1..]| && 0 <= i < |parts[1..][k]| ==> parts[1..][k][i] != sep by {
        forall k, i | 0 <= k < |parts[1..]| && 0 <= i < |parts[1..][k]| ensures parts[1..][k][i] != sep {
          assert parts[1..][k] == parts[k + 1];
        }
      }
      SplitJoin(parts[1..], sep);
      assert forall i :: 0 <= i < |parts[0]| ==> parts[0][i] != sep;
      SplitAppendSep(parts[0], Join(parts[1..], [sep]), sep);
    }
  }
}
