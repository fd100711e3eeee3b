/** String primitives of the JavaScript runtime that the shop relies on:
    decimal rendering of numbers, `padStart`, `parseInt`, `trim`, `split`
    and `length`. A Dafny string is a sequence of Unicode scalar values;
    `JsLength` counts the UTF-16 code units JavaScript's `length` counts. */
module Text {
  import opened Common

  predicate IsDigit(c: char) {
    '0' <= c <= '9'
  }

  predicate AllDigits(s: string) {
    forall i :: 0 <= i < |s| ==> IsDigit(s[i])
  }

  function DigitChar(d: nat): (c: char)
    requires d < 10
    ensures IsDigit(c)
  {
    (('0' as int) + d) as char
  }

  function DigitValue(c: char): (d: nat)
    requires IsDigit(c)
    ensures d < 10
  {
    c as int - '0' as int
  }

  /** `n.toString()` for a non-negative integer. */
  function NatToDecimal(n: nat): (s: string)
    ensures 1 <= |s| && AllDigits(s)
    ensures n < 10 <==> |s| == 1
    ensures n < 100 <==> |s| <= 2
    ensures n < 1000 <==> |s| <= 3
    decreases n
  {
    if n < 10 then [DigitChar(n)] else NatToDecimal(n / 10) + [DigitChar(n % 10)]
  }

  /** The value of a string of decimal digits (what `parseInt` gives for it). */
  function ParseDecimal(s: string): nat
    requires AllDigits(s)
  {
    if s == [] then 0 else ParseDecimal(s[..|s| - 1]) * 10 + DigitValue(s[|s| - 1])
  }

  lemma {:induction false} ParseNatToDecimal(n: nat)
    ensures ParseDecimal(NatToDecimal(n)) == n
    decreases n
  {
    if n >= 10 {
      var s := NatToDecimal(n);
      assert s[..|s| - 1] == NatToDecimal(n / 10);
      ParseNatToDecimal(n / 10);
    }
  }

  function Repeat(c: char, k: nat): (s: string)
    ensures |s| == k && forall i :: 0 <= i < k ==> s[i] == c
  {
    if k == 0 then [] else [c] + Repeat(c, k - 1)
  }

  /** How many UTF-16 code units a character takes: two outside the Basic
      Multilingual Plane. */
  function CodeUnits(c: char): nat {
    if c as int > 0xFFFF then 2 else 1
  }

  /** `s.length`: the number of UTF-16 code units. */
  function JsLength(s: string): (n: nat)
    ensures |s| <= n <= 2 * |s|
  {
    if s == [] then 0 else JsLength(s[..|s| - 1]) + CodeUnits(s[|s| - 1])
  }

  lemma JsLengthSnoc(s: string, c: char)
    ensures JsLength(s + [c]) == JsLength(s) + CodeUnits(c)
  {
    assert (s + [c])[..|s|] == s;
  }

  /** Within the Basic Multilingual Plane `length` counts characters. */
  lemma {:induction false} JsLengthBmp(s: string)
    requires forall i :: 0 <= i < |s| ==> s[i] as int <= 0xFFFF
    ensures JsLength(s) == |s|
  {
    if s != [] {
      JsLengthBmp(s[..|s| - 1]);
    }
  }

  /** `s.padStart(width, pad)`. */
  function PadStart(s: string, width: nat, pad: char): (r: string)
    ensures |s| >= width ==> r == s
    ensures |s| < width ==> |r| == width && r[width - |s|..] == s
    ensures |s| < width ==> forall i :: 0 <= i < width - |s| ==> r[i] == pad
  {
    if |s| >= width then s else Repeat(pad, width - |s|) + s
  }

  lemma {:induction false} ParseLeadingZeros(k: nat, s: string)
    requires AllDigits(s)
    ensures AllDigits(Repeat('0', k) + s)
    ensures ParseDecimal(Repeat('0', k) + s) == ParseDecimal(s)
    decreases |s|
  {
    var z := Repeat('0', k) + s;
    if s == [] {
      assert z == Repeat('0', k);
      ZerosParseToZero(k);
    } else {
      assert z[..|z| - 1] == Repeat('0', k) + s[..|s| - 1];
      ParseLeadingZeros(k, s[..|s| - 1]);
    }
  }

  lemma {:induction false} ZerosParseToZero(k: nat)
    ensures AllDigits(Repeat('0', k)) && ParseDecimal(Repeat('0', k)) == 0
  {
    if k > 0 {
      RepeatSnoc('0', k - 1);
      assert Repeat('0', k)[..k - 1] == Repeat('0', k - 1);
      ZerosParseToZero(k - 1);
    }
  }

  lemma {:induction false} RepeatSnoc(c: char, k: nat)
    ensures Repeat(c, k + 1) == Repeat(c, k) + [c]
  {
    if k > 0 {
      RepeatSnoc(c, k - 1);
    }
  }

  /** The characters `String.prototype.trim` removes (WhiteSpace and
      LineTerminator of the ECMAScript grammar), and the ones `parseInt`
      skips before the number. */
  predicate IsJsSpace(c: char) {
    c == ' ' || c == '\t' || c == '\n' || c == '\r' || c == '\U{000B}' || c == '\U{000C}'
    || c == '\U{00A0}' || c == '\U{1680}' || ('\U{2000}' <= c <= '\U{200A}')
    || c == '\U{2028}' || c == '\U{2029}' || c == '\U{202F}' || c == '\U{205F}'
    || c == '\U{3000}' || c == '\U{FEFF}'
  }

  function TrimStart(s: string): (r: string)
    ensures |r| <= |s| && r == s[|s| - |r|..]
    ensures r == [] || !IsJsSpace(r[0])
  {
    if s != [] && IsJsSpace(s[0]) then TrimStart(s[1..]) else s
  }

  /** What `TrimStart` drops is white space. */
  lemma {:induction false} TrimStartDropsSpaces(s: string)
    ensures forall i :: 0 <= i < |s| - |TrimStart(s)| ==> IsJsSpace(s[i])
  {
    if s != [] && IsJsSpace(s[0]) {
      TrimStartDropsSpaces(s[1..]);
      assert forall i :: 1 <= i < |s| ==> s[i] == s[1..][i - 1];
    }
  }

  function TrimEnd(s: string): (r: string)
    ensures |r| <= |s| && r == s[..|r|]
    ensures r == [] || !IsJsSpace(r[|r| - 1])
    ensures forall i :: |r| <= i < |s| ==> IsJsSpace(s[i])
  {
    if s != [] && IsJsSpace(s[|s| - 1]) then TrimEnd(s[..|s| - 1]) else s
  }

  /** `s.trim()`: the longest infix that neither starts nor ends with white space. */
  function Trim(s: string): (r: string)
    ensures |r| <= |s|
    ensures r == [] || (!IsJsSpace(r[0]) && !IsJsSpace(r[|r| - 1]))
    ensures (forall i :: 0 <= i < |s| ==> !IsJsSpace(s[i])) ==> r == s
    ensures var i := |s| - |TrimStart(s)|;
      i + |r| <= |s| && r == s[i..i + |r|]
      && (forall k :: 0 <= k < i ==> IsJsSpace(s[k]))
      && (forall k :: i + |r| <= k < |s| ==> IsJsSpace(s[k]))
  {
    TrimEnds(s); TrimKeeps(s); TrimInfix(s); TrimDropsLeading(s); TrimDropsTrailing(s);
    TrimEnd(TrimStart(s))
  }

  /** A string without white space is its own trim. */
  lemma {:induction false} TrimKeeps(s: string)
    ensures (forall i :: 0 <= i < |s| ==> !IsJsSpace(s[i])) ==> TrimEnd(TrimStart(s)) == s
  {
    if forall i :: 0 <= i < |s| ==> !IsJsSpace(s[i]) {
      assert TrimStart(s) == s;
      assert TrimEnd(s) == s;
    }
  }

  /** The trimmed string neither starts nor ends with white space. */
  lemma {:induction false} TrimEnds(s: string)
    ensures var r := TrimEnd(TrimStart(s)); r == [] || (!IsJsSpace(r[0]) && !IsJsSpace(r[|r| - 1]))
  {
    var t := TrimStart(s);
    var r := TrimEnd(t);
    if r != [] {
      assert r[0] == t[0];
    }
  }

  /** The trimmed string is the infix between the two dropped runs. */
  lemma {:induction false} TrimInfix(s: string)
    ensures var t := TrimStart(s); var i := |s| - |t|; var r := TrimEnd(t);
      i + |r| <= |s| && r == s[i..i + |r|]
  {
    SliceOfSuffix(s, TrimStart(s), TrimEnd(TrimStart(s)));
  }

  /** A prefix of a suffix is an infix. */
  lemma SliceOfSuffix(s: string, t: string, r: string)
    requires |t| <= |s| && t == s[|s| - |t|..] && |r| <= |t| && r == t[..|r|]
    ensures r == s[|s| - |t|..|s| - |t| + |r|]
  {
    assert forall j :: 0 <= j < |r| ==> r[j] == t[j] == s[|s| - |t| + j];
  }

  /** The leading run dropped is white space, in the form `Trim` states it. */
  lemma {:induction false} TrimDropsLeading(s: string)
    ensures var t := TrimStart(s); var i := |s| - |t|;
      (forall k :: 0 <= k < i ==> IsJsSpace(s[k]))
  {
    TrimStartDropsSpaces(s);
  }

  /** The trailing run dropped is white space. */
  lemma {:induction false} TrimDropsTrailing(s: string)
    ensures var t := TrimStart(s); var i := |s| - |t|; var r := TrimEnd(t);
      (forall k :: i + |r| <= k < |s| ==> IsJsSpace(s[k]))
  {
    var t := TrimStart(s);
    var i := |s| - |t|;
    var r := TrimEnd(t);
    forall k | i + |r| <= k < |s|
      ensures IsJsSpace(s[k])
    {
      assert s[k] == t[k - i];
    }
  }

  /** The longest prefix of digits. */
  function LeadingDigits(s: string): (r: string)
    ensures |r| <= |s| && AllDigits(r) && r == s[..|r|]
    ensures |r| == |s| || !IsDigit(s[|r|])
  {
    if s != [] && IsDigit(s[0]) then [s[0]] + LeadingDigits(s[1..]) else []
  }

  predicate IsHexDigit(c: char) {
    IsDigit(c) || 'a' <= c <= 'f' || 'A' <= c <= 'F'
  }

  predicate AllHex(s: string) {
    forall i :: 0 <= i < |s| ==> IsHexDigit(s[i])
  }

  function HexValue(c: char): (d: nat)
    requires IsHexDigit(c)
    ensures d < 16
  {
    if IsDigit(c) then DigitValue(c)
    else if 'a' <= c <= 'f' then c as int - 'a' as int + 10
    else c as int - 'A' as int + 10
  }

  /** The value of a string of hexadecimal digits. */
  function ParseHex(s: string): nat
    requires AllHex(s)
  {
    if s == [] then 0 else ParseHex(s[..|s| - 1]) * 16 + HexValue(s[|s| - 1])
  }

  /** The longest prefix of hexadecimal digits. */
  function LeadingHex(s: string): (r: string)
    ensures |r| <= |s| && AllHex(r) && r == s[..|r|]
    ensures |r| == |s| || !IsHexDigit(s[|r|])
  {
    if s != [] && IsHexDigit(s[0]) then [s[0]] + LeadingHex(s[1..]) else []
  }

  /** A "0x" or "0X" prefix, which `parseInt` without a radix reads as base 16. */
  predicate HexPrefixed(s: string) {
    |s| >= 2 && s[0] == '0' && (s[1] == 'x' || s[1] == 'X')
  }

  /** The unsigned part of `parseInt`: after a hex prefix the longest run of
      hexadecimal digits, otherwise the longest run of decimal digits; `None`
      when that run is empty. */
  function Magnitude(body: string): Option<nat> {
    if HexPrefixed(body) then
      var h := LeadingHex(body[2..]);
      if h == [] then None else Some(ParseHex(h))
    else
      var d := LeadingDigits(body);
      if d == [] then None else Some(ParseDecimal(d))
  }

  /** `parseInt(s)` with no radix, as every caller in the shop writes it:
      leading white space, an optional sign, then a hex-prefixed or decimal
      run of digits, anything after it ignored; `None` stands for NaN. */
  function ParseInt(s: string): (r: Option<int>)
    ensures AllDigits(s) && s != [] ==> r == Some(ParseDecimal(s))
  {
    var t := TrimStart(s);
    if AllDigits(s) && s != [] then
      // A plain run of digits, written out first: the general reading
      // below gives the same value for it.
      assert t == s && Unsigned(s) == s && !HexPrefixed(s) && LeadingDigits(s) == s;
      Some(ParseDecimal(s))
    else
      WithSign(Negative(t), Magnitude(Unsigned(t)))
  }

  /** A leading minus sign. */
  predicate Negative(t: string) {
    t != [] && t[0] == '-'
  }

  /** The text after a leading sign, if there is one. */
  function Unsigned(t: string): string {
    if t != [] && (t[0] == '-' || t[0] == '+') then t[1..] else t
  }

  /** A magnitude, negated after a minus sign; NaN stays NaN. */
  function WithSign(neg: bool, m: Option<nat>): Option<int> {
    match m
    case None => None
    case Some(v) => Some(if neg then 0 - v else v)
  }

  /** The value a sign string gives a magnitude. */
  function Signed(sign: string, m: nat): int {
    if sign == "-" then 0 - m else m
  }

  lemma {:induction false} TrimStartSpaces(ws: string, x: string)
    requires forall i :: 0 <= i < |ws| ==> IsJsSpace(ws[i])
    requires x == [] || !IsJsSpace(x[0])
    ensures TrimStart(ws + x) == x
  {
    if ws != [] {
      assert (ws + x)[1..] == ws[1..] + x;
      TrimStartSpaces(ws[1..], x);
    } else {
      assert ws + x == x;
    }
  }

  lemma {:induction false} LeadingDigitsOf(d: string, rest: string)
    requires AllDigits(d)
    requires rest == [] || !IsDigit(rest[0])
    ensures LeadingDigits(d + rest) == d
  {
    if d != [] {
      assert (d + rest)[1..] == d[1..] + rest;
      LeadingDigitsOf(d[1..], rest);
    } else {
      assert d + rest == rest;
    }
  }

  lemma {:induction false} LeadingHexOf(h: string, rest: string)
    requires AllHex(h)
    requires rest == [] || !IsHexDigit(rest[0])
    ensures LeadingHex(h + rest) == h
  {
    if h != [] {
      assert (h + rest)[1..] == h[1..] + rest;
      LeadingHexOf(h[1..], rest);
    } else {
      assert h + rest == rest;
    }
  }

  /** Every input, plain digits included, takes the general reading. */
  lemma ParseIntReading(s: string)
    ensures ParseInt(s) == WithSign(Negative(TrimStart(s)), Magnitude(Unsigned(TrimStart(s))))
  {
    if AllDigits(s) && s != [] {
      assert TrimStart(s) == s && Unsigned(s) == s && !HexPrefixed(s) && LeadingDigits(s) == s;
    }
  }

  /** Once the white space is gone, a sign or none, then the unsigned part. */
  lemma ParseIntTrimmed(s: string, sign: string, body: string)
    requires sign == "" || sign == "+" || sign == "-"
    requires sign == "" ==> body == [] || (body[0] != '+' && body[0] != '-')
    requires TrimStart(s) == sign + body
    ensures Magnitude(body).None? ==> ParseInt(s) == None
    ensures Magnitude(body).Some? ==> ParseInt(s) == Some(Signed(sign, Magnitude(body).value))
  {
    var t := sign + body;
    ParseIntReading(s);
    assert Unsigned(t) == body && (Negative(t) <==> sign == "-") by {
      if sign == "" {
        assert t == body;
      } else {
        assert t[0] == sign[0] && t[1..] == body;
      }
    }
  }

  /** White space, then a sign or none, then the unsigned part. */
  lemma ParseIntSplit(ws: string, sign: string, body: string)
    requires forall i :: 0 <= i < |ws| ==> IsJsSpace(ws[i])
    requires sign == "" || sign == "+" || sign == "-"
    requires sign == "" ==> body == [] || (!IsJsSpace(body[0]) && body[0] != '+' && body[0] != '-')
    ensures Magnitude(body).None? ==> ParseInt(ws + sign + body) == None
    ensures Magnitude(body).Some? ==> ParseInt(ws + sign + body) == Some(Signed(sign, Magnitude(body).value))
  {
    var t := sign + body;
    assert ws + sign + body == ws + t;
    assert t == [] || !IsJsSpace(t[0]) by {
      if sign != "" { assert t[0] == sign[0]; }
    }
    TrimStartSpaces(ws, t);
    ParseIntTrimmed(ws + sign + body, sign, body);
  }

  /** The decimal reading: after white space and a sign, the longest run of
      digits counts and whatever follows it is ignored ("12abc" is 12). */
  lemma ParseIntDecimal(ws: string, sign: string, d: string, rest: string)
    requires forall i :: 0 <= i < |ws| ==> IsJsSpace(ws[i])
    requires sign == "" || sign == "+" || sign == "-"
    requires d != [] && AllDigits(d)
    requires rest == [] || !IsDigit(rest[0])
    requires !HexPrefixed(d + rest)
    ensures ParseInt(ws + sign + d + rest) == Some(Signed(sign, ParseDecimal(d)))
  {
    assert ws + sign + d + rest == ws + sign + (d + rest);
    LeadingDigitsOf(d, rest);
    ParseIntSplit(ws, sign, d + rest);
  }

  /** The hexadecimal reading: "0x" or "0X" and then the longest run of hex
      digits ("0x1A" is 26); no hex digit after the prefix is NaN. */
  lemma ParseIntHex(ws: string, sign: string, x: char, h: string, rest: string)
    requires forall i :: 0 <= i < |ws| ==> IsJsSpace(ws[i])
    requires sign == "" || sign == "+" || sign == "-"
    requires x == 'x' || x == 'X'
    requires AllHex(h)
    requires rest == [] || !IsHexDigit(rest[0])
    ensures h == [] ==> ParseInt(ws + sign + ['0', x] + h + rest) == None
    ensures h != [] ==> ParseInt(ws + sign + ['0', x] + h + rest) == Some(Signed(sign, ParseHex(h)))
  {
    var body := ['0', x] + h + rest;
    assert ws + sign + ['0', x] + h + rest == ws + sign + body;
    assert HexPrefixed(body) && body[2..] == h + rest;
    LeadingHexOf(h, rest);
    ParseIntSplit(ws, sign, body);
  }

  /** No digit after the white space and the sign: NaN. */
  lemma ParseIntNaN(ws: string, sign: string, rest: string)
    requires forall i :: 0 <= i < |ws| ==> IsJsSpace(ws[i])
    requires sign == "" || sign == "+" || sign == "-"
    requires rest == [] || (!IsDigit(rest[0]) && !IsJsSpace(rest[0]) && rest[0] != '+' && rest[0] != '-')
    ensures ParseInt(ws + sign + rest) == None
  {
    assert !HexPrefixed(rest) && LeadingDigits(rest) == [];
    ParseIntSplit(ws, sign, rest);
  }

  /** A hex-prefixed route parameter is read in base 16. */
  lemma ParseIntHexExample()
    ensures ParseInt("0x1A") == Some(26)
  {
    var s := "0x1A";
    assert HexPrefixed(s) && s[2..] == "1A" + "";
    LeadingHexOf("1A", "");
    assert ParseHex("1A") == 26 by {
      assert "1A"[..1] == "1";
    }
    assert Magnitude(s) == Some(26);
    assert "" + "" + s == s;
    ParseIntSplit("", "", s);
  }

  /** The prefix alone is NaN. */
  lemma ParseIntBarePrefixExample()
    ensures ParseInt("0x") == None
  {
    var p := "0x";
    assert HexPrefixed(p) && p[2..] == "";
    assert Magnitude(p) == None;
    assert "" + "" + p == p;
    ParseIntSplit("", "", p);
  }

  /** Trailing characters are ignored. */
  lemma ParseIntTrailingExample()
    ensures ParseInt("12abc") == Some(12)
  {
    var s := "12abc";
    assert s == "12" + "abc";
    LeadingDigitsOf("12", "abc");
    assert ParseDecimal("12") == 12 by {
      assert "12"[..1] == "1";
    }
    assert Magnitude(s) == Some(12);
    assert "" + "" + s == s;
    ParseIntSplit("", "", s);
  }

  /** No digit at all is NaN. */
  lemma ParseIntNaNExample()
    ensures ParseInt("abc") == None
  {
    var s := "abc";
    ParseIntNaN("", "", s);
    assert "" + "" + s == s;
  }

  /** Leading white space is skipped and a minus sign kept. */
  lemma ParseIntSignExample()
    ensures ParseInt(" -7") == Some(-7)
  {
    var s := " -7";
    assert s == " " + ("-" + "7");
    TrimStartSpaces(" ", "-" + "7");
    assert Magnitude("7") == Some(7);
    ParseIntTrimmed(s, "-", "7");
  }

  function Count(s: string, c: char): nat {
    if s == [] then 0 else (if s[0] == c then 1 else 0) + Count(s[1..], c)
  }

  function IndexOf(s: string, c: char): (r: Option<nat>)
    ensures r.None? <==> c !in s
    ensures r.Some? ==> r.value < |s| && s[r.value] == c && c !in s[..r.value]
  {
    if s == [] then None
    else if s[0] == c then Some(0)
    else match IndexOf(s[1..], c)
      case None => None
      case Some(i) => assert s[1..][..i] == s[1..i + 1]; Some(i + 1)
  }

  /** `s.split(sep)` for a one-character separator: the pieces between
      separators, so "" gives [""] and "1,2" gives ["1", "2"]. */
  function Split(s: string, sep: char): (r: seq<string>)
    ensures |r| >= 1
    ensures forall i :: 0 <= i < |r| ==> sep !in r[i]
    decreases |s|
  {
    match IndexOf(s, sep)
    case None => [s]
    case Some(i) => [s[..i]] + Split(s[i + 1..], sep)
  }

  lemma {:induction false} SplitCount(s: string, sep: char)
    ensures |Split(s, sep)| == Count(s, sep) + 1
    decreases |s|
  {
    match IndexOf(s, sep)
    case None =>
      CountAbsent(s, sep);
    case Some(i) =>
      SplitCount(s[i + 1..], sep);
      CountSplitAt(s, sep, i);
  }

  lemma {:induction false} CountAbsent(s: string, c: char)
    requires c !in s
    ensures Count(s, c) == 0
  {
    if s != [] {
      assert s == [s[0]] + s[1..];
      CountAbsent(s[1..], c);
    }
  }

  /** With `s[i]` the first `c`, the count is one plus the count after it. */
  lemma {:induction false} CountSplitAt(s: string, c: char, i: nat)
    requires i < |s| && s[i] == c && c !in s[..i]
    ensures Count(s, c) == 1 + Count(s[i + 1..], c)
  {
    if i > 0 {
      assert s[0] != c by { assert s[0] == s[..i][0]; }
      assert s[1..][..i - 1] == s[1..i];
      assert s[..i] == [s[0]] + s[1..i];
      CountSplitAt(s[1..], c, i - 1);
      assert s[1..][i..] == s[i + 1..];
    } else {
      assert s[1..] == s[i + 1..];
    }
  }

  /** A piece free of the separator, then the separator, splits off first. */
  lemma SplitAround(a: string, sep: char, b: string)
    requires sep !in a
    ensures Split(a + [sep] + b, sep) == [a] + Split(b, sep)
  {
    var s := a + [sep] + b;
    var k := IndexOf(s, sep).value;
    assert s[|a|] == sep;
    assert s[..|a|] == a && s[|a| + 1..] == b;
  }
}
