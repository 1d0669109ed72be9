/** The string operations of JavaScript that the application relies on:
    `trim`, `split`, `join`, `includes`, `toLowerCase`, `padStart(2, '0')`,
    `Number.prototype.toString` on integers, and `parseInt` both with radix
    10 and without a radix (when a `0x` prefix selects base 16). */
module Text {
  import opened Js

  predicate IsDigit(c: char) {
    '0' <= c <= '9'
  }

  function DigitValue(c: char): (d: nat)
    requires IsDigit(c)
    ensures d < 10
  {
    (c as int) - ('0' as int)
  }

  function DigitChar(d: nat): (c: char)
    requires d < 10
    ensures IsDigit(c) && DigitValue(c) == d
  {
    (('0' as int) + d) as char
  }

  predicate AllDigits(s: string) {
    forall i :: 0 <= i < |s| ==> IsDigit(s[i])
  }

  /** The value of a string of decimal digits, most significant digit first. */
  function DigitsValue(s: string): nat
    requires AllDigits(s)
  {
    if s == [] then 0 else DigitsValue(s[..|s| - 1]) * 10 + DigitValue(s[|s| - 1])
  }

  /** `n.toString()` for a non-negative integer: its decimal digits, with no
      leading zero except for `0` itself. */
  function NatToString(n: nat): (r: string)
    ensures r != [] && AllDigits(r) && DigitsValue(r) == n
    ensures r[0] == '0' <==> n == 0
  {
    if n < 10 then [DigitChar(n)]
    else
      var r := NatToString(n / 10) + [DigitChar(n % 10)];
      assert r[..|r| - 1] == NatToString(n / 10);
      r
  }

  /** Different numbers have different decimal texts. */
  lemma NatToStringInjective(a: nat, b: nat)
    requires a != b
    ensures NatToString(a) != NatToString(b)
  {
  }

  /** `String(i)` for any integer. */
  function IntToString(i: int): (r: string)
    ensures r != []
    ensures i >= 0 ==> r == NatToString(i)
    ensures i < 0 ==> r[0] == '-' && r[1..] == NatToString(-i)
  {
    if i < 0 then "-" + NatToString(-i) else NatToString(i)
  }

  /** The characters JavaScript's `trim` removes: white space and line terminators. */
  predicate IsWhitespace(c: char) {
    || c == ' ' || c == '\t' || c == '\n' || c == '\r' || c == '\U{000B}' || c == '\U{000C}'
    || c == '\U{00A0}' || c == '\U{1680}' || ('\U{2000}' <= c <= '\U{200A}')
    || c == '\U{2028}' || c == '\U{2029}' || c == '\U{202F}' || c == '\U{205F}'
    || c == '\U{3000}' || c == '\U{FEFF}'
  }

  /** `s.trimStart()` */
  function TrimStart(s: string): string {
    if s != [] && IsWhitespace(s[0]) then TrimStart(s[1..]) else s
  }

  /** `s.trimEnd()` */
  function TrimEnd(s: string): string {
    if s != [] && IsWhitespace(s[|s| - 1]) then TrimEnd(s[..|s| - 1]) else s
  }

  /** `s.trim()` */
  function Trim(s: string): string {
    TrimEnd(TrimStart(s))
  }

  /** `trimStart` removes exactly the leading white space. */
  lemma {:induction false} TrimStartFacts(s: string)
    ensures |TrimStart(s)| <= |s| && TrimStart(s) == s[|s| - |TrimStart(s)|..]
    ensures TrimStart(s) == [] || !IsWhitespace(TrimStart(s)[0])
    ensures forall i :: 0 <= i < |s| - |TrimStart(s)| ==> IsWhitespace(s[i])
  {
    if s != [] && IsWhitespace(s[0]) {
      var r := s[1..];
      TrimStartFacts(r);
      var t := TrimStart(r);
      assert TrimStart(s) == t;
      assert s[|s| - |t|..] == r[|r| - |t|..];
      forall i | 0 <= i < |s| - |t|
        ensures IsWhitespace(s[i])
      {
        if i > 0 {
          assert s[i] == r[i - 1];
        }
      }
    }
  }

  /** `trimEnd` removes exactly the trailing white space. */
  lemma {:induction false} TrimEndFacts(s: string)
    ensures |TrimEnd(s)| <= |s| && TrimEnd(s) == s[..|TrimEnd(s)|]
    ensures TrimEnd(s) == [] || !IsWhitespace(TrimEnd(s)[|TrimEnd(s)| - 1])
    ensures forall i :: |TrimEnd(s)| <= i < |s| ==> IsWhitespace(s[i])
  {
    if s != [] && IsWhitespace(s[|s| - 1]) {
      TrimEndFacts(s[..|s| - 1]);
    }
  }

  /** `trim` gives the empty string exactly for all-white-space input, and
      otherwise a string that starts and ends with a non-white-space
      character. */
  lemma TrimFacts(s: string)
    ensures Trim(s) == [] <==> forall i :: 0 <= i < |s| ==> IsWhitespace(s[i])
    ensures Trim(s) != [] ==> !IsWhitespace(Trim(s)[0]) && !IsWhitespace(Trim(s)[|Trim(s)| - 1])
    ensures |Trim(s)| <= |s|
  {
    var t := TrimStart(s);
    TrimStartFacts(s);
    TrimEndFacts(t);
    if Trim(s) != [] {
      assert Trim(s)[0] == t[0];
    }
  }

  /** Index of the first occurrence of `c` in `s`, or `|s|` when there is none. */
  function IndexOf(s: string, c: char): (k: nat)
    ensures k <= |s|
    ensures k < |s| ==> s[k] == c
    ensures forall i :: 0 <= i < k ==> s[i] != c
  {
    if s == [] then 0 else if s[0] == c then 0 else 1 + IndexOf(s[1..], c)
  }

  /** `parts.map(p => p.trim())` */
  function TrimEach(parts: seq<string>): (r: seq<string>)
    ensures |r| == |parts|
    ensures forall k {:trigger Trim(parts[k])} :: 0 <= k < |parts| ==> r[k] == Trim(parts[k])
  {
    if parts == [] then [] else [Trim(parts[0])] + TrimEach(parts[1..])
  }

  /** `s.split(sep)` for a one-character separator: never empty, and no
      part contains the separator. */
  function Split(s: string, sep: char): (parts: seq<string>)
    ensures |parts| >= 1
    ensures forall i :: 0 <= i < |parts| ==> sep !in parts[i]
    decreases |s|
  {
    var k := IndexOf(s, sep);
    if k == |s| then [s] else [s[..k]] + Split(s[k + 1..], sep)
  }

  /** `parts.join(sep)` */
  function Join(parts: seq<string>, sep: string): string {
    if parts == [] then ""
    else if |parts| == 1 then parts[0]
    else parts[0] + sep + Join(parts[1..], sep)
  }

  /** Splitting and joining again with the same separator gives the input back. */
  lemma {:induction false} JoinSplit(s: string, sep: char)
    ensures Join(Split(s, sep), [sep]) == s
    decreases |s|
  {
    var k := IndexOf(s, sep);
    if k < |s| {
      JoinSplit(s[k + 1..], sep);
      assert s == s[..k] + [sep] + s[k + 1..];
    }
  }

  /** `cols[k] || undefined`: a missing or empty column is absent. */
  function ColumnOrAbsent(cols: seq<string>, k: nat): (r: Option<string>)
    ensures r.None? <==> k >= |cols| || cols[k] == ""
    ensures r.Some? ==> k < |cols| && r.value == cols[k]
  {
    if k < |cols| then NonEmpty(cols[k]) else None
  }

  /** `s.trim().split('\n')`: the lines of a text with surrounding white space removed. */
  function Lines(s: string): (lines: seq<string>)
    ensures |lines| >= 1
  {
    Split(Trim(s), '\n')
  }

  predicate StartsWith(s: string, prefix: string) {
    |prefix| <= |s| && s[..|prefix|] == prefix
  }

  /** `s.includes(sub)` */
  predicate Contains(s: string, sub: string)
    decreases |s|
  {
    StartsWith(s, sub) || (s != [] && Contains(s[1..], sub))
  }

  /** `sub` occurs in `s` starting at position `i`. */
  predicate OccursAt(s: string, sub: string, i: int) {
    0 <= i && i + |sub| <= |s| && s[i..i + |sub|] == sub
  }

  /** `Contains` holds exactly when `sub` occurs at some position of `s`. */
  lemma {:induction false} ContainsAt(s: string, sub: string)
    ensures Contains(s, sub) <==> exists i :: OccursAt(s, sub, i)
    decreases |s|
  {
    if s != [] {
      ContainsAt(s[1..], sub);
      if exists i :: OccursAt(s, sub, i) {
        var i :| OccursAt(s, sub, i);
        if i > 0 {
          assert OccursAt(s[1..], sub, i - 1);
        }
      }
      if StartsWith(s, sub) {
        assert OccursAt(s, sub, 0);
      } else if Contains(s[1..], sub) {
        var i :| OccursAt(s[1..], sub, i);
        assert s[i + 1..i + 1 + |sub|] == s[1..][i..i + |sub|];
        assert OccursAt(s, sub, i + 1);
      }
    } else {
      if exists i :: OccursAt(s, sub, i) {
        var i :| OccursAt(s, sub, i);
        assert StartsWith(s, sub);
      }
      if Contains(s, sub) {
        assert OccursAt(s, sub, 0);
      }
    }
  }

  function LowerChar(c: char): char {
    if 'A' <= c <= 'Z' then ((c as int) + 32) as char else c
  }

  /** `s.toLowerCase()` on the ASCII letters. */
  function ToLower(s: string): (r: string)
    ensures |r| == |s|
    ensures forall i :: 0 <= i < |s| ==> !('A' <= r[i] <= 'Z')
  {
    if s == [] then [] else [LowerChar(s[0])] + ToLower(s[1..])
  }

  /** `s.padStart(2, '0')` */
  function PadStart2(s: string): (r: string)
    ensures |r| == if |s| < 2 then 2 else |s|
    ensures r[|r| - |s|..] == s
    ensures forall i :: 0 <= i < |r| - |s| ==> r[i] == '0'
  {
    if |s| >= 2 then s else if |s| == 1 then "0" + s else "00"
  }

  /** The longest prefix of `s` made of decimal digits. */
  function DigitPrefix(s: string): (d: string)
    ensures AllDigits(d) && |d| <= |s| && d == s[..|d|]
    ensures |d| == |s| || !IsDigit(s[|d|])
  {
    if s != [] && IsDigit(s[0]) then [s[0]] + DigitPrefix(s[1..]) else []
  }

  /** The text after an optional leading sign. */
  function SignStripped(t: string): (body: string)
    ensures body == t || (t != [] && t[0] in "+-" && body == t[1..])
  {
    if t != [] && t[0] in "+-" then t[1..] else t
  }

  /** `parseInt(s, 10)`: skip leading white space, read an optional sign and
      the longest run of decimal digits; `NaN` when there is no digit. */
  function ParseDecimal(s: string): (r: JsInt)
    ensures r.NaN? <==> DigitPrefix(SignStripped(TrimStart(s))) == []
    ensures r.Int? ==> (r.i >= 0 <==> TrimStart(s)[0] != '-' || DigitsValue(DigitPrefix(SignStripped(TrimStart(s)))) == 0)
  {
    var t := TrimStart(s);
    var digits := DigitPrefix(SignStripped(t));
    if digits == [] then NaN
    else if t[0] == '-' then Int(0 - DigitsValue(digits))
    else Int(DigitsValue(digits))
  }

  predicate IsHexDigit(c: char) {
    IsDigit(c) || 'a' <= c <= 'f' || 'A' <= c <= 'F'
  }

  function HexDigitValue(c: char): (d: nat)
    requires IsHexDigit(c)
    ensures d < 16
    ensures IsDigit(c) ==> d == DigitValue(c)
  {
    if IsDigit(c) then DigitValue(c)
    else if 'a' <= c <= 'f' then (c as int) - ('a' as int) + 10
    else (c as int) - ('A' as int) + 10
  }

  predicate AllHexDigits(s: string) {
    forall i :: 0 <= i < |s| ==> IsHexDigit(s[i])
  }

  /** The value of a string of hexadecimal digits, most significant first. */
  function HexValue(s: string): nat
    requires AllHexDigits(s)
  {
    if s == [] then 0 else HexValue(s[..|s| - 1]) * 16 + HexDigitValue(s[|s| - 1])
  }

  /** The longest prefix of `s` made of hexadecimal digits. */
  function HexPrefix(s: string): (d: string)
    ensures AllHexDigits(d) && |d| <= |s| && d == s[..|d|]
    ensures |d| == |s| || !IsHexDigit(s[|d|])
  {
    if s != [] && IsHexDigit(s[0]) then [s[0]] + HexPrefix(s[1..]) else []
  }

  /** Without a radix, `parseInt` reads base 16 after a `0x` or `0X`. */
  predicate HexMarked(body: string) {
    |body| >= 2 && body[0] == '0' && (body[1] == 'x' || body[1] == 'X')
  }

  /** `parseInt(s)` without a radix: as `parseInt(s, 10)`, except that when
      the text after the white space and the sign starts with `0x` or `0X`
      the digits after it are read in base 16, and `NaN` results when no
      hexadecimal digit follows the prefix. */
  function ParseInt(s: string): (r: JsInt)
    ensures !HexMarked(SignStripped(TrimStart(s))) ==> r == ParseDecimal(s)
    ensures HexMarked(SignStripped(TrimStart(s))) ==>
      (r.NaN? <==> HexPrefix(SignStripped(TrimStart(s))[2..]) == [])
    ensures HexMarked(SignStripped(TrimStart(s))) && r.Int? ==>
      (if TrimStart(s)[0] == '-' then -r.i else r.i) == HexValue(HexPrefix(SignStripped(TrimStart(s))[2..]))
  {
    var t := TrimStart(s);
    var body := SignStripped(t);
    if HexMarked(body) then
      var digits := HexPrefix(body[2..]);
      if digits == [] then NaN
      else if t[0] == '-' then Int(0 - HexValue(digits))
      else Int(HexValue(digits))
    else ParseDecimal(s)
  }

  /** The two readings differ on a bare `0x`: without a radix it is `NaN`,
      where radix 10 reads it as 0. */
  lemma HexPrefixAlone()
    ensures ParseInt("0x") == NaN && ParseDecimal("0x") == Int(0)
  {
    assert TrimStart("0x") == "0x";
    assert HexPrefix("") == [];
    assert DigitPrefix("0x") == "0";
  }

  /** ... and on `0x1A`: 26 without a radix, 0 with radix 10. */
  lemma HexPrefixDigits()
    ensures ParseInt("0x1A") == Int(26) && ParseDecimal("0x1A") == Int(0)
  {
    assert TrimStart("0x1A") == "0x1A";
    assert SignStripped("0x1A") == "0x1A" && "0x1A"[2..] == "1A";
    assert HexPrefix("1A") == "1A";
    assert "1A"[..1] == "1" && "1"[..0] == [];
    assert HexValue("1") == 1;
    assert HexValue("1A") == 26;
    assert DigitPrefix("0x1A") == "0";
  }

  /** A sign may come before the `0x`: `-0x3` is -3. */
  lemma HexPrefixSigned()
    ensures ParseInt("-0x3") == Int(-3)
  {
    assert TrimStart("-0x3") == "-0x3";
    assert SignStripped("-0x3") == "0x3";
    assert HexPrefix("3") == "3";
  }

  /** The digit prefix of a digit string followed by a non-digit is that digit string. */
  lemma {:induction false} DigitPrefixOf(d: string, rest: string)
    requires AllDigits(d)
    requires rest == [] || !IsDigit(rest[0])
    ensures DigitPrefix(d + rest) == d
  {
    if d != [] {
      assert (d + rest)[1..] == d[1..] + rest;
      DigitPrefixOf(d[1..], rest);
    }
  }

  /** Leading zeros do not change the value of a digit string. */
  lemma {:induction false} LeadingZero(d: string)
    requires AllDigits(d)
    ensures AllDigits("0" + d) && DigitsValue("0" + d) == DigitsValue(d)
  {
    if d != [] {
      assert ("0" + d)[..|"0" + d| - 1] == "0" + d[..|d| - 1];
      LeadingZero(d[..|d| - 1]);
    }
  }

  /** Reading back the decimal rendering of `n`, followed by anything that does
      not start with a digit, gives `n`. */
  lemma ParseNatToString(n: nat, rest: string)
    requires rest == [] || !IsDigit(rest[0])
    requires n == 0 && rest != [] ==> rest[0] != 'x' && rest[0] != 'X'
    ensures ParseDecimal(NatToString(n) + rest) == Int(n)
    ensures ParseInt(NatToString(n) + rest) == Int(n)
  {
    var s := NatToString(n) + rest;
    assert !IsWhitespace(s[0]);
    assert TrimStart(s) == s;
    assert SignStripped(s) == s;
    DigitPrefixOf(NatToString(n), rest);
    if n == 0 && rest != [] {
      assert s[1] == rest[0];
    }
  }

  /** Reading back the rendering of any integer gives that integer. */
  lemma ParseIntToString(i: int)
    ensures ParseInt(IntToString(i)) == Int(i)
  {
    if i >= 0 {
      ParseNatToString(i, "");
      assert NatToString(i) + "" == NatToString(i);
    } else {
      var s := IntToString(i);
      assert !IsWhitespace(s[0]);
      assert TrimStart(s) == s;
      assert SignStripped(s) == NatToString(-i);
      DigitPrefixOf(NatToString(-i), "");
      assert NatToString(-i) + "" == NatToString(-i);
    }
  }

  /** A number below 100 renders, zero-padded, as exactly two digits. */
  lemma PaddedTwoDigits(n: nat)
    requires n < 100
    ensures |PadStart2(NatToString(n))| == 2 && AllDigits(PadStart2(NatToString(n)))
  {
    if n >= 10 {
      assert NatToString(n) == NatToString(n / 10) + [DigitChar(n % 10)];
    }
  }

  /** The same holds for the two-character zero-padded rendering. */
  lemma ParsePadded(n: nat, rest: string)
    requires rest == [] || !IsDigit(rest[0])
    ensures ParseInt(PadStart2(NatToString(n)) + rest) == Int(n)
  {
    var d := NatToString(n);
    if |d| >= 2 {
      ParseNatToString(n, rest);
    } else {
      LeadingZero(d);
      var s := "0" + d + rest;
      assert PadStart2(d) + rest == s;
      assert !IsWhitespace(s[0]);
      assert TrimStart(s) == s;
      assert SignStripped(s) == s && IsDigit(s[1]);
      DigitPrefixOf("0" + d, rest);
    }
  }
}
